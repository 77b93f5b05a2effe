/** What holds over every run of the agent loop, through any number of crashes and recoveries. */
module AgentLoopRuns {
  import opened Words
  import opened AgentLoopModel

  function Ids(journal: seq<Entry>): (ids: seq<Id>)
    ensures |ids| == |journal|
  {
    seq(|journal|, i requires 0 <= i < |journal| => journal[i].action)
  }

  /** The actions the journal calls committed, in journal order. */
  function Committed(journal: seq<Entry>): seq<Id> {
    if journal == [] then []
    else
      var last := journal[|journal| - 1];
      Committed(journal[..|journal| - 1]) + if last.phase == Commit then [last.action] else []
  }

  function PlanOf(t: Task): seq<Id> {
    if t.plan.Some? then t.plan.value else []
  }

  /** The first `cursor` actions of the plan. */
  function DoneOf(t: Task): seq<Id> {
    if t.cursor <= |PlanOf(t)| then PlanOf(t)[..t.cursor] else []
  }

  function AsSet(id: Option<Id>): multiset<Id> {
    if id.Some? then multiset{id.value} else multiset{}
  }

  ghost predicate TaskOk(t: Task) {
    && t.cursor <= |PlanOf(t)|
    && PlanAccepted(PlanOf(t))
    && Committed(t.journal) == DoneOf(t)
    && (t.state == AwaitingApproval ==> t.confirmation.Some? && t.cursor < |PlanOf(t)|)
    && (t.state == Paused ==> t.pauseReason == Some("backpressure"))
    && t.approved != Some("")
    && t.responseId != Some("")
    && |t.events| == t.sequence
    && forall i | 0 <= i < |t.events| :: t.events[i].sequence == i
  }

  /** Memory differs from the checkpoint at most in what a crash may lose. */
  predicate Agree(t: Task, d: Task) {
    && t.state == d.state && t.sequence == d.sequence && t.turn == d.turn && t.cursor == d.cursor
    && t.plan == d.plan && t.responseId == d.responseId && t.confirmation == d.confirmation
    && t.approved == d.approved && t.journal == d.journal && t.events == d.events
    && (t.state == Paused ==> t.pauseReason == d.pauseReason)
  }

  /** Approvals granted but not yet spent. */
  function Unspent(d: Task, pc: Pc): multiset<Id> {
    AsSet(d.approved) + if pc.Executing? && pc.confirm then multiset{pc.action} else multiset{}
  }

  /** The execution announced in the journal and not yet begun. */
  function Announced(pc: Pc): multiset<Id> {
    if pc.Executing? then multiset{pc.action} else multiset{}
  }

  /** The tallies: approvals cover what was and may be spent; what is done was executed; every
      execution was announced in the saved journal first. */
  ghost predicate Books(w: World, unspent: multiset<Id>, announced: multiset<Id>, done: seq<Id>, ids: seq<Id>) {
    && w.confirmed + unspent <= w.approvals
    && multiset(done) <= multiset(w.executed)
    && multiset(w.executed) + announced <= multiset(ids)
  }

  ghost predicate InHand(m: Machine, d: Task) {
    && m.task.Some? && d.cursor < |PlanOf(d)| && Active(d.state) && d.state != AwaitingApproval && d.journal != []
    && d.journal[|d.journal| - 1] == Entry(Prepare, PlanOf(d)[d.cursor])
  }

  /** The next action has run, and no checkpoint says so. */
  ghost predicate Tried(m: Machine, d: Task) {
    && d.cursor < |PlanOf(d)| && Active(d.state) && d.state != AwaitingApproval
    && PlanOf(d)[d.cursor] in m.world.executed
  }

  /** What the place in the call adds. */
  ghost predicate PcOk(m: Machine, d: Task) {
    match m.pc
    case Idle => true
    case Asking => d.plan.None? && m.task.Some? && Active(d.state) && d.state != AwaitingApproval
    case Looping => d.plan.Some? && m.task.Some? && Active(d.state) && d.state != AwaitingApproval
    case Beating => d.plan.Some? && m.task.Some? && Active(d.state) && d.state != AwaitingApproval
    case Executing(action, confirm) =>
      && InHand(m, d) && action == PlanOf(d)[d.cursor]
      && (confirm ==> d.approved == None)
    case Thrown => InHand(m, d) && Tried(m, d)
    case Returned(_) => InHand(m, d) && Tried(m, d)
    case Granted =>
      && m.task.Some? && d.state == AwaitingApproval && d.cursor < |PlanOf(d)|
      && m.world.confirmed + multiset{PlanOf(d)[d.cursor]} <= m.world.approvals
    case Entering => m.task.Some?
    case Failing(exposed) => m.task.Some? && (exposed ==> Tried(m, d))
  }

  ghost predicate Inv(m: Machine) {
    if m.disk.None? then
      m.task.None? && m.pc == Idle && m.world.executed == [] && m.world.confirmed <= m.world.approvals
    else
      var d := m.disk.value;
      && TaskOk(d)
      && (m.task.Some? ==> Agree(m.task.value, d))
      && PcOk(m, d)
      && Books(m.world, Unspent(d, m.pc), Announced(m.pc), DoneOf(d), Ids(d.journal))
  }

  // --- every step keeps it ---

  lemma EmitOk(cfg: Config, t: Task, kind: EventKind)
    requires TaskOk(t)
    ensures TaskOk(Emit(cfg, t, kind))
    ensures var u := Emit(cfg, t, kind);
            && u == t.(sequence := u.sequence, events := u.events, pending := u.pending,
                       state := u.state, pauseReason := u.pauseReason)
            && t.events <= u.events
            && (u.state == t.state || (u.state == Paused && Active(t.state) && t.state != AwaitingApproval))
  {
  }

  lemma SavedOk(t: Task, w: World, pc: Pc)
    requires TaskOk(t) && PcOk(Saved(t, w, pc), Snapshot(t))
    requires Books(w, Unspent(t, pc), Announced(pc), DoneOf(t), Ids(t.journal))
    ensures Inv(Saved(t, w, pc))
  {
    hide Books, PcOk;
    assert TaskOk(Snapshot(t)) && DoneOf(Snapshot(t)) == DoneOf(t);
  }

  /** A save with nothing in flight and no approval appearing. */
  lemma SaveKeeps(m: Machine, t: Task, pc: Pc)
    requires Inv(m) && m.disk.Some? && TaskOk(t) && !pc.Executing? && !m.pc.Executing?
    requires DoneOf(t) == DoneOf(m.disk.value) && Ids(t.journal) == Ids(m.disk.value.journal)
    requires t.approved == None || t.approved == m.disk.value.approved
    requires PcOk(Saved(t, m.world, pc), Snapshot(t))
    ensures Inv(Saved(t, m.world, pc))
  {
    hide PcOk, TaskOk;
    SavedOk(t, m.world, pc);
  }

  lemma CommittedSnoc(j: seq<Entry>, e: Entry)
    ensures Committed(j + [e]) == Committed(j) + if e.phase == Commit then [e.action] else []
    ensures Ids(j + [e]) == Ids(j) + [e.action]
  {
    assert (j + [e])[..|j|] == j;
  }

  lemma RemarkedOk(front: seq<Entry>, action: Id, phase: Phase)
    ensures var j, k := front + [Entry(Prepare, action)], front + [Entry(phase, action)];
            Committed(k) == Committed(j) + (if phase == Commit then [action] else []) && Ids(k) == Ids(j)
  {
    hide Committed, Ids;
    CommittedSnoc(front, Entry(phase, action));
    CommittedSnoc(front, Entry(Prepare, action));
  }

  lemma MarkedOk(j: seq<Entry>, phase: Phase)
    requires j != [] && j[|j| - 1].phase == Prepare
    ensures Committed(Marked(j, phase)) == Committed(j) + if phase == Commit then [j[|j| - 1].action] else []
    ensures Ids(Marked(j, phase)) == Ids(j)
  {
    hide Committed, Ids;
    var front, last := j[..|j| - 1], j[|j| - 1];
    assert last == Entry(Prepare, last.action);
    assert j == front + [last];
    RemarkedOk(front, last.action, phase);
  }

  /** A change of state alone, announced and saved. */
  lemma EmitKeepsAt(cfg: Config, m: Machine, t: Task, kind: EventKind)
    requires Inv(m) && m.task.Some? && !m.pc.Executing?
    requires t == m.task.value.(state := t.state, pauseReason := t.pauseReason)
    requires t.state == AwaitingApproval || t.state == Paused ==> t == m.task.value
    ensures Inv(Saved(Emit(cfg, t, kind), m.world, Idle))
  {
    hide Emit;
    EmitOk(cfg, t, kind);
    SaveKeeps(m, Emit(cfg, t, kind), Idle);
  }

  lemma EnterKeeps(cfg: Config, m: Machine, now: int)
    requires Inv(m) && m.pc == Entering
    ensures Inv(EnterStep(cfg, m, m.task.value, now))
  {
    hide Emit, PlanAccepted, Committed, Ids, Books;
    var t := m.task.value;
    EmitOk(cfg, t.(lastHeartbeat := now), Heartbeat);
    if t.state == Running || t.state == Created {
      var u := Emit(cfg, t.(lastHeartbeat := now), Heartbeat);
      SaveKeeps(m, u, if u.plan.None? then Asking else Looping);
    }
  }

  lemma FailKeeps(cfg: Config, m: Machine)
    requires Inv(m) && m.task.Some? && !m.pc.Executing?
    ensures Inv(Saved(FailedTask(cfg, m.task.value), m.world, Idle))
  {
    var t := m.task.value;
    EmitKeepsAt(cfg, m, t.(state := Failed, pauseReason := None), TaskFailed);
  }

  lemma AskFacts(m: Machine)
    requires Inv(m) && m.pc == Asking
    ensures m.task.Some?
  {
    hide TaskOk, Books;
  }

  lemma AskKeeps(cfg: Config, m: Machine, answer: ModelAnswer)
    requires Inv(m) && m.pc == Asking
    ensures Inv(AskStep(cfg, m, m.task.value, answer))
  {
    AskFacts(m);
    hide Inv, Emit, FailedTask, PlanAccepted, Saved;
    var t := m.task.value;
    FailKeeps(cfg, m);
    if answer.Response? && answer.id != "" && PlanAccepted(answer.plan) && t.responseId != Some(answer.id) {
      PlannedKeeps(cfg, m, answer.id, answer.plan);
    }
  }

  lemma PlannedKeeps(cfg: Config, m: Machine, id: string, plan: seq<Id>)
    requires Inv(m) && m.pc == Asking && id != "" && PlanAccepted(plan)
    ensures var t := m.task.value;
            var u := Emit(cfg, t.(responseId := Some(id), plan := Some(plan), turn := t.turn + 1), ModelResponse);
            Inv(Saved(u, m.world, Onward(u, Looping)))
  {
    hide Emit, PlanAccepted, Committed;
    var t := m.task.value;
    var u := t.(responseId := Some(id), plan := Some(plan), turn := t.turn + 1);
    assert DoneOf(t) == [] && DoneOf(u) == [];
    EmitOk(cfg, u, ModelResponse);
    var v := Emit(cfg, u, ModelResponse);
    SaveKeeps(m, v, Onward(v, Looping));
  }

  lemma PreparedKeeps(cfg: Config, m: Machine, action: Id, confirm: bool)
    requires Inv(m) && m.pc == Looping && m.task.value.cursor < |PlanOf(m.task.value)|
    requires action == PlanOf(m.task.value)[m.task.value.cursor]
    requires confirm ==> m.task.value.approved == Some(action)
    ensures var t := m.task.value;
            Inv(Prepared(cfg, m, if confirm then t.(approved := None) else t, action, confirm))
  {
    hide Emit, Committed, Ids, Books, PlanAccepted;
    var t := if confirm then m.task.value.(approved := None) else m.task.value;
    var u := t.(journal := t.journal + [Entry(Prepare, action)]);
    CommittedSnoc(t.journal, Entry(Prepare, action));
    assert TaskOk(u);
    EmitOk(cfg, u, ActionPrepare);
    var v := Emit(cfg, u, ActionPrepare);
    PreparedBooks(m, v, action, confirm);
    assert PcOk(Saved(v, m.world, Executing(action, confirm)), Snapshot(v)) by {
      hide TaskOk;
    }
    SavedOk(v, m.world, Executing(action, confirm));
  }

  lemma PreparedBooks(m: Machine, v: Task, action: Id, confirm: bool)
    requires Inv(m) && m.pc == Looping && DoneOf(v) == DoneOf(m.disk.value)
    requires Ids(v.journal) == Ids(m.disk.value.journal) + [action]
    requires if confirm then v.approved == None && m.disk.value.approved == Some(action)
             else v.approved == m.disk.value.approved
    ensures var pc := Executing(action, confirm);
            Books(m.world, Unspent(v, pc), Announced(pc), DoneOf(v), Ids(v.journal))
  {
    hide PcOk, TaskOk, Committed, Ids;
    assert multiset(Ids(v.journal)) == multiset(Ids(m.disk.value.journal)) + multiset{action};
  }

  lemma RequestKeeps(cfg: Config, m: Machine, token: string)
    requires Inv(m) && m.pc == Looping && m.task.value.cursor < |PlanOf(m.task.value)|
    ensures var t := m.task.value;
            var action := PlanOf(t)[t.cursor];
            var u := t.(confirmation := Some(Confirmation(action, token)), state := AwaitingApproval);
            Inv(Saved(Emit(cfg, u, ApprovalRequested), m.world, Idle))
  {
    hide Emit;
    var t := m.task.value;
    var u := t.(confirmation := Some(Confirmation(PlanOf(t)[t.cursor], token)), state := AwaitingApproval);
    EmitOk(cfg, u, ApprovalRequested);
    SaveKeeps(m, Emit(cfg, u, ApprovalRequested), Idle);
  }

  lemma CompletedKeeps(cfg: Config, m: Machine)
    requires Inv(m) && m.pc == Looping
    ensures Inv(Saved(Emit(cfg, m.task.value.(state := Completed), TaskCompleted), m.world, Idle))
  {
    EmitKeepsAt(cfg, m, m.task.value.(state := Completed), TaskCompleted);
  }

  lemma LoopFacts(m: Machine)
    requires Inv(m) && m.pc == Looping
    ensures m.task.Some? && m.task.value.plan.Some? && Inv(m.(pc := Idle))
  {
    hide TaskOk, PlanAccepted, Committed, Ids, Books;
  }

  lemma LoopKeeps(cfg: Config, m: Machine, answer: PolicyAnswer)
    requires Inv(m) && m.pc == Looping
    ensures Inv(LoopStep(cfg, m, m.task.value, answer))
  {
    hide Inv, Emit, Prepared, FailedTask, Saved;
    LoopFacts(m);
    var t := m.task.value;
    FailKeeps(cfg, m);
    CompletedKeeps(cfg, m);
    if t.cursor < |t.plan.value| && t.state != Paused {
      var action := t.plan.value[t.cursor];
      if answer.Allow? {
        PreparedKeeps(cfg, m, action, false);
      } else if answer.Confirm? && t.approved == Some(action) {
        PreparedKeeps(cfg, m, action, true);
      } else if answer.Confirm? && answer.token.Some? {
        RequestKeeps(cfg, m, answer.token.value);
      }
    }
  }

  lemma ExecutedBooks(w: World, v: World, unspent: multiset<Id>, action: Id, confirm: bool, done: seq<Id>, ids: seq<Id>)
    requires Books(w, unspent + if confirm then multiset{action} else multiset{}, multiset{action}, done, ids)
    requires v.executed == w.executed + [action] && v.approvals == w.approvals
    requires v.confirmed == if confirm then w.confirmed + multiset{action} else w.confirmed
    ensures Books(v, unspent, multiset{}, done, ids) && action in v.executed
  {
    assert multiset(v.executed) == multiset(w.executed) + multiset{action};
    assert v.executed[|w.executed|] == action;
  }

  lemma ExecuteKeeps(m: Machine, outcome: Outcome)
    requires Inv(m) && m.pc.Executing?
    ensures Inv(ExecuteStep(m, outcome))
  {
    hide TaskOk, Committed, Ids, Books, PlanAccepted, DoneOf;
    var n := ExecuteStep(m, outcome);
    var d := m.disk.value;
    assert Unspent(d, m.pc) == AsSet(d.approved) + if m.pc.confirm then multiset{m.pc.action} else multiset{};
    ExecutedBooks(m.world, n.world, AsSet(d.approved), m.pc.action, m.pc.confirm, DoneOf(d), Ids(d.journal));
    assert Unspent(d, n.pc) == AsSet(d.approved);
  }

  lemma ThrownKeeps(m: Machine)
    requires Inv(m) && m.pc == Thrown
    ensures Inv(ThrownStep(m, m.task.value))
  {
    hide Marked, PlanAccepted, Committed, Ids, Books;
    var t := m.task.value;
    MarkedOk(t.journal, RollbackPending);
    SaveKeeps(m, t.(journal := Marked(t.journal, RollbackPending)), Failing(true));
  }

  /** A committed action adds one to what is done, and it had been executed. */
  lemma OneMoreDone(plan: seq<Id>, cursor: nat, executed: seq<Id>)
    requires cursor < |plan| && PlanAccepted(plan) && plan[cursor] in executed
    requires multiset(plan[..cursor]) <= multiset(executed)
    ensures multiset(plan[..cursor + 1]) <= multiset(executed)
  {
    assert plan[..cursor + 1] == plan[..cursor] + [plan[cursor]];
    assert plan[cursor] !in plan[..cursor];
    assert multiset(plan[..cursor])[plan[cursor]] == 0;
    assert plan[cursor] in multiset(executed);
  }

  lemma DoneBooks(w: World, unspent: multiset<Id>, done: seq<Id>, more: seq<Id>, ids: seq<Id>)
    requires Books(w, unspent, multiset{}, done, ids) && multiset(more) <= multiset(w.executed)
    ensures Books(w, unspent, multiset{}, more, ids)
  {
  }

  function Committing(t: Task): Task {
    t.(journal := Marked(t.journal, Commit), cursor := t.cursor + 1)
  }

  lemma CommittingOk(t: Task)
    requires TaskOk(t) && t.cursor < |PlanOf(t)| && t.state != AwaitingApproval
    requires t.journal != [] && t.journal[|t.journal| - 1] == Entry(Prepare, PlanOf(t)[t.cursor])
    ensures var u := Committing(t);
            TaskOk(u) && DoneOf(u) == PlanOf(t)[..t.cursor + 1] && Ids(u.journal) == Ids(t.journal)
  {
    hide Committed, Ids, Marked, PlanAccepted;
    MarkedOk(t.journal, Commit);
    assert PlanOf(t)[..t.cursor + 1] == DoneOf(t) + [PlanOf(t)[t.cursor]];
  }

  lemma ReturnedFacts(m: Machine)
    requires Inv(m) && m.pc.Returned?
    ensures m.task.Some? && m.disk.Some?
    ensures var t, d := m.task.value, m.disk.value;
            && Agree(t, d) && TaskOk(t) && InHand(m, t) && t.plan.Some?
            && PlanOf(t)[t.cursor] in m.world.executed && multiset(DoneOf(t)) <= multiset(m.world.executed)
            && Books(m.world, AsSet(t.approved), multiset{}, DoneOf(t), Ids(t.journal))
  {
    hide Committed, Ids, PlanAccepted;
    assert Unspent(m.disk.value, m.pc) == AsSet(m.disk.value.approved);
  }

  lemma ReturnedKeeps(cfg: Config, m: Machine, ok: bool)
    requires Inv(m) && m.pc == Returned(ok)
    ensures Inv(ReturnedStep(cfg, m, m.task.value, ok))
  {
    ReturnedFacts(m);
    var t, u := m.task.value, Committing(m.task.value);
    assert PlanAccepted(PlanOf(t));
    hide Inv, Emit, Marked, Books, TaskOk, PlanAccepted, Committed, Ids;
    CommittingOk(t);
    OneMoreDone(PlanOf(t), t.cursor, m.world.executed);
    DoneBooks(m.world, AsSet(t.approved), DoneOf(t), DoneOf(u), Ids(t.journal));
    CommitKeeps(cfg, m.world, u, ok);
  }

  lemma CommitKeeps(cfg: Config, w: World, u: Task, ok: bool)
    requires TaskOk(u) && Active(u.state) && u.state != AwaitingApproval && u.plan.Some?
    requires Books(w, AsSet(u.approved), multiset{}, DoneOf(u), Ids(u.journal))
    ensures var v := Emit(cfg, u, ActionResult);
            Inv(Saved(v, w, if !ok then Failing(false) else Onward(v, Beating)))
  {
    hide Emit, Committed, Ids, Books, PlanAccepted;
    EmitOk(cfg, u, ActionResult);
    var v := Emit(cfg, u, ActionResult);
    var pc := if !ok then Failing(false) else Onward(v, Beating);
    assert Unspent(v, pc) == AsSet(u.approved);
    SavedOk(v, w, pc);
  }

  lemma BeatKeeps(cfg: Config, m: Machine, now: int)
    requires Inv(m) && m.pc == Beating
    ensures Inv(BeatStep(cfg, m, m.task.value, now))
  {
    hide Emit, PlanAccepted, Committed, Ids, Books;
    var t := m.task.value;
    EmitOk(cfg, t.(lastHeartbeat := now), Heartbeat);
    SaveKeeps(m, Emit(cfg, t.(lastHeartbeat := now), Heartbeat), Looping);
  }

  lemma GrantKeeps(cfg: Config, m: Machine)
    requires Inv(m) && m.pc == Granted
    ensures Inv(GrantStep(cfg, m, m.task.value))
  {
    hide Emit, Committed, Ids;
    var t := m.task.value;
    var u := t.(confirmation := None, approved := Some(t.plan.value[t.cursor]), state := Running);
    EmitOk(cfg, u, ApprovalGranted);
    SavedOk(Emit(cfg, u, ApprovalGranted), m.world, Entering);
  }

  lemma GoKeeps(cfg: Config, m: Machine, a: Answer)
    requires Inv(m) && m.task.Some?
    ensures Inv(GoOn(cfg, m, m.task.value, a))
  {
    hide Inv, Emit, EnterStep, AskStep, LoopStep, ThrownStep, ReturnedStep, BeatStep, GrantStep, ExecuteStep;
    match m.pc
    case Idle =>
    case Entering => EnterKeeps(cfg, m, a.now);
    case Asking => AskKeeps(cfg, m, a.model);
    case Looping => LoopKeeps(cfg, m, a.policy);
    case Executing(_, _) => ExecuteKeeps(m, a.outcome);
    case Thrown => ThrownKeeps(m);
    case Returned(ok) => ReturnedKeeps(cfg, m, ok);
    case Failing(_) => FailKeeps(cfg, m);
    case Beating => BeatKeeps(cfg, m, a.now);
    case Granted => GrantKeeps(cfg, m);
  }

  lemma StartKeeps(cfg: Config, m: Machine, now: int)
    requires Inv(m) && m.pc == Idle
    ensures Inv(StartCall(cfg, m, now))
  {
    if m.task.None? {
      var t := Opened(cfg, now);
      OpenedOk(cfg, now);
      var w := World(m.world.past + m.world.executed, [], m.world.confirmed, m.world.approvals);
      assert m.world.confirmed <= m.world.approvals;
      hide Inv, TaskOk, Opened;
      SavedOk(t, w, Entering);
    }
  }

  /** A task just opened has done nothing. */
  lemma OpenedOk(cfg: Config, now: int)
    ensures var t := Opened(cfg, now);
            TaskOk(t) && DoneOf(t) == [] && Ids(t.journal) == [] && t.approved == None
  {
    var blank := Task(Created, None, 0, 0, 0, None, None, None, None, [], [], [], now);
    assert TaskOk(blank);
    var u := Emit(cfg, blank, TaskOpen);
    EmitOk(cfg, blank, TaskOpen);
    hide Emit;
    assert TaskOk(u.(state := Running));
    EmitOk(cfg, u.(state := Running), TaskRunning);
  }

  lemma ApproveKeeps(m: Machine, token: string, consumed: bool)
    requires Inv(m) && m.pc == Idle && m.task.Some?
    ensures Inv(ApproveCall(m, m.task.value, token, consumed))
  {
  }

  lemma AckKeeps(cfg: Config, m: Machine, sequence: int)
    requires Inv(m) && m.pc == Idle && m.task.Some?
    ensures Inv(AckCall(cfg, m, m.task.value, sequence))
  {
    var u := m.task.value.(pending := After(m.task.value.pending, sequence));
    var v := u.(state := Running, pauseReason := None);
    assert TaskOk(u);
    if u.state == Paused {
      EmitOk(cfg, v, RuntimeResumed);
      SaveKeeps(m, Emit(cfg, v, RuntimeResumed), Idle);
    }
  }

  lemma MonitorKeeps(cfg: Config, m: Machine, now: int)
    requires Inv(m) && m.pc == Idle && m.task.Some?
    ensures Inv(MonitorCall(cfg, m, m.task.value, now))
  {
    hide Inv, FailedTask;
    FailKeeps(cfg, m);
  }

  lemma CancelKeeps(cfg: Config, m: Machine, reason: string)
    requires Inv(m) && m.pc == Idle && m.task.Some?
    ensures Inv(CancelCall(cfg, m, m.task.value, reason))
  {
    hide Inv, Emit;
    EmitKeepsAt(cfg, m, m.task.value.(state := Cancelled, pauseReason := Some(reason)), TaskCancelled);
  }

  lemma StepCallKeeps(m: Machine)
    requires Inv(m) && m.pc == Idle && m.task.Some?
    ensures Inv(m.(pc := Entering))
  {
    hide TaskOk;
  }

  lemma CallKeeps(cfg: Config, m: Machine, c: Choice)
    requires Inv(m) && m.pc == Idle
    ensures Inv(Call(cfg, m, c))
  {
    hide Inv, Emit, Saved, StartCall, RecoverCall, ApproveCall, AckCall, MonitorCall, CancelCall;
    if c.Start? {
      StartKeeps(cfg, m, c.now);
    } else if c.Recover? {
      RecoverKeeps(m, c.now);
    } else if m.task.Some? {
      match c
      case Step => StepCallKeeps(m);
      case Approve(token, consumed) => ApproveKeeps(m, token, consumed);
      case Ack(sequence) => AckKeeps(cfg, m, sequence);
      case Monitor(now) => MonitorKeeps(cfg, m, now);
      case Checkpoint => EmitKeepsAt(cfg, m, m.task.value, TaskCheckpoint);
      case Cancel(reason) => CancelKeeps(cfg, m, reason);
      case _ =>
    }
  }

  lemma RecoverKeeps(m: Machine, now: int)
    requires Inv(m) && m.pc == Idle
    ensures Inv(RecoverCall(m, now))
  {
    hide Committed, Books;
  }

  lemma MicroKeeps(cfg: Config, m: Machine, c: Choice)
    requires Inv(m)
    ensures Inv(Micro(cfg, m, c))
  {
    if c.Crash? {
    } else if m.pc == Idle {
      CallKeeps(cfg, m, c);
    } else if c.Go? && m.task.Some? {
      GoKeeps(cfg, m, c.answer);
    }
  }

  lemma {:induction false} RunKeeps(cfg: Config, m: Machine, cs: seq<Choice>)
    requires Inv(m)
    ensures Inv(Run(cfg, m, cs))
    decreases |cs|
  {
    if cs != [] {
      RunKeeps(cfg, m, cs[..|cs| - 1]);
      MicroKeeps(cfg, Run(cfg, m, cs[..|cs| - 1]), cs[|cs| - 1]);
    }
  }

  // --- the results ---

  /** Whatever crashes and recoveries happen: the executions of actions the policy marked `confirm`
      are covered, action by action, by approvals the policy consumed; the saved journal commits
      exactly the first `cursor` actions of the saved plan, in order; every committed action was
      executed, and every execution had its own journal entry saved before it. */
  lemma EveryRunKeepsTheBooks(cfg: Config, cs: seq<Choice>)
    ensures var m := Run(cfg, Initial(), cs);
            && m.world.confirmed <= m.world.approvals
            && (m.disk.Some? ==>
                  var d := m.disk.value;
                  && d.cursor <= |PlanOf(d)|
                  && Committed(d.journal) == PlanOf(d)[..d.cursor]
                  && multiset(Committed(d.journal)) <= multiset(m.world.executed) <= multiset(Ids(d.journal)))
            && (m.task.Some? ==>
                  var t := m.task.value;
                  t.cursor <= |PlanOf(t)| && Committed(t.journal) == PlanOf(t)[..t.cursor])
  {
    RunKeeps(cfg, Initial(), cs);
    ReadBooks(Run(cfg, Initial(), cs));
  }

  lemma ReadBooks(m: Machine)
    requires Inv(m)
    ensures m.world.confirmed <= m.world.approvals
    ensures m.disk.Some? ==>
              var d := m.disk.value;
              && d.cursor <= |PlanOf(d)| && Committed(d.journal) == PlanOf(d)[..d.cursor]
              && multiset(DoneOf(d)) <= multiset(m.world.executed) <= multiset(Ids(d.journal))
    ensures m.task.Some? ==>
              var t := m.task.value;
              t.cursor <= |PlanOf(t)| && Committed(t.journal) == PlanOf(t)[..t.cursor]
  {
    hide Committed, Ids, PlanAccepted, PcOk;
  }

  // --- what is saved only grows ---

  /** From one checkpoint of a task to a later one: the plan stays once there is one, the cursor
      and the event log only move forward. */
  ghost predicate Later(d: Task, e: Task) {
    && (d.plan.Some? ==> e.plan == d.plan)
    && d.cursor <= e.cursor
    && d.events <= e.events
  }

  /** An action has run and no checkpoint yet says so, or that the task failed. */
  predicate Exposed(pc: Pc) {
    pc.Thrown? || pc.Returned? || pc == Failing(true)
  }

  /** One step other than a fresh start: what it can do to the checkpoint and to the world. */
  ghost predicate Onwards(m: Machine, n: Machine) {
    && m.disk.Some? && n.disk.Some? && Later(m.disk.value, n.disk.value)
    && m.world.past == n.world.past
    && (|| n.world.executed == m.world.executed
        || (m.pc.Executing? && n.world.executed == m.world.executed + [m.pc.action]))
    && (m.disk.value.state == Failed ==> n.disk.value.state == Failed)
  }

  /** A step that executes nothing, keeps plan and cursor, and uncovers no exposed action. */
  ghost predicate Stays(m: Machine, n: Machine) {
    && m.disk.Some? && n.disk.Some? && Later(m.disk.value, n.disk.value)
    && m.world.past == n.world.past && m.world.executed == n.world.executed
    && n.disk.value.cursor == m.disk.value.cursor && n.disk.value.plan == m.disk.value.plan
    && (m.disk.value.state == Failed || Exposed(m.pc) ==> n.disk.value.state == Failed || Exposed(n.pc))
    && (m.disk.value.state == Failed ==> n.disk.value.state == Failed)
  }

  lemma StaysOnwards(m: Machine, n: Machine)
    requires Stays(m, n)
    ensures Onwards(m, n)
  {
  }

  /** Saving a task that differs from the one in memory in its state and in what an event adds. */
  lemma EmitStays(cfg: Config, m: Machine, t: Task, kind: EventKind, pc: Pc)
    requires Inv(m) && m.task.Some? && TaskOk(t)
    requires var u := m.task.value;
             t.events == u.events && t.sequence == u.sequence && t.cursor == u.cursor && t.plan == u.plan
    requires m.task.value.state == Failed ==> t.state == Failed
    requires Exposed(m.pc) ==> t.state == Failed || Exposed(pc)
    ensures Stays(m, Saved(Emit(cfg, t, kind), m.world, pc))
  {
    hide Emit, TaskOk, Books, Committed, Ids, PlanAccepted;
    EmitOk(cfg, t, kind);
  }

  lemma FailStays(cfg: Config, m: Machine)
    requires Inv(m) && m.task.Some?
    ensures Stays(m, Saved(FailedTask(cfg, m.task.value), m.world, Idle))
  {
    EmitStays(cfg, m, m.task.value.(state := Failed, pauseReason := None), TaskFailed, Idle);
  }

  /** Only the process's own place in the call changes. */
  lemma PcStays(m: Machine, n: Machine)
    requires Inv(m) && m.disk.Some? && !Exposed(m.pc) && n.disk == m.disk && n.world.executed == m.world.executed
    requires n.world.past == m.world.past
    ensures Stays(m, n)
  {
  }

  lemma EnterStays(cfg: Config, m: Machine, now: int)
    requires Inv(m) && m.pc == Entering
    ensures Stays(m, EnterStep(cfg, m, m.task.value, now))
  {
    hide Emit, Books, Committed, Ids, PlanAccepted, Stays;
    var t := m.task.value;
    PcStays(m, m.(pc := Idle));
    EmitStays(cfg, m, t.(lastHeartbeat := now), Heartbeat, Asking);
    EmitStays(cfg, m, t.(lastHeartbeat := now), Heartbeat, Looping);
  }

  lemma PreparedStays(cfg: Config, m: Machine, t: Task, action: Id, confirm: bool)
    requires Inv(m) && m.pc == Looping && t == m.task.value.(approved := t.approved) && t.approved != Some("")
    ensures Stays(m, Prepared(cfg, m, t, action, confirm))
  {
    hide Emit, Books, Committed, Ids, PlanAccepted, Stays;
    var u := t.(journal := t.journal + [Entry(Prepare, action)]);
    CommittedSnoc(t.journal, Entry(Prepare, action));
    EmitStays(cfg, m, u, ActionPrepare, Executing(action, confirm));
  }

  lemma LoopStays(cfg: Config, m: Machine, answer: PolicyAnswer)
    requires Inv(m) && m.pc == Looping
    ensures Stays(m, LoopStep(cfg, m, m.task.value, answer))
  {
    hide Emit, Books, Committed, Ids, PlanAccepted, Stays, Prepared, FailedTask, Saved;
    var t := m.task.value;
    FailStays(cfg, m);
    PcStays(m, m.(pc := Idle));
    if t.cursor >= |t.plan.value| {
      EmitStays(cfg, m, t.(state := Completed), TaskCompleted, Idle);
    } else {
      hide Inv;
      var action := t.plan.value[t.cursor];
      PreparedStays(cfg, m, t, action, false);
      PreparedStays(cfg, m, t.(approved := None), action, true);
      if answer.Confirm? && answer.token.Some? {
        var u := t.(confirmation := Some(Confirmation(action, answer.token.value)), state := AwaitingApproval);
        EmitStays(cfg, m, u, ApprovalRequested, Idle);
      }
    }
  }

  lemma GrantStays(cfg: Config, m: Machine)
    requires Inv(m) && m.pc == Granted
    ensures Stays(m, GrantStep(cfg, m, m.task.value))
  {
    hide Emit, Books, Committed, Ids, Stays;
    var t := m.task.value;
    var u := t.(confirmation := None, approved := Some(t.plan.value[t.cursor]), state := Running);
    EmitStays(cfg, m, u, ApprovalGranted, Entering);
  }

  lemma BeatStays(cfg: Config, m: Machine, now: int)
    requires Inv(m) && m.pc == Beating
    ensures Stays(m, BeatStep(cfg, m, m.task.value, now))
  {
    hide Emit, Books, Committed, Ids, PlanAccepted, Stays;
    EmitStays(cfg, m, m.task.value.(lastHeartbeat := now), Heartbeat, Looping);
  }

  /** Every step inside a call but three: the model's answer, the execution and the commit. */
  lemma GoStays(cfg: Config, m: Machine, a: Answer)
    requires Inv(m) && m.task.Some? && m.pc != Asking && !m.pc.Executing? && !m.pc.Returned?
    ensures Stays(m, GoOn(cfg, m, m.task.value, a))
  {
    hide Emit, Marked, EnterStep, LoopStep, BeatStep, GrantStep, FailedTask, TaskOk, Books, Committed, Ids,
        PlanAccepted;
    match m.pc
    case Entering => EnterStays(cfg, m, a.now);
    case Looping => LoopStays(cfg, m, a.policy);
    case Beating => BeatStays(cfg, m, a.now);
    case Granted => GrantStays(cfg, m);
    case Failing(_) => FailStays(cfg, m);
    case Idle =>
    case Thrown =>
  }

  lemma AskOnwards(cfg: Config, m: Machine, answer: ModelAnswer)
    requires Inv(m) && m.task.Some? && m.pc == Asking
    ensures Onwards(m, AskStep(cfg, m, m.task.value, answer))
  {
    hide TaskOk, Books, Committed, Ids, Marked, PlanAccepted;
  }

  lemma ExecuteOnwards(m: Machine, outcome: Outcome)
    requires Inv(m) && m.task.Some? && m.pc.Executing?
    ensures Onwards(m, ExecuteStep(m, outcome))
  {
    hide TaskOk, Books, Committed, Ids, Marked, PlanAccepted;
  }

  lemma ReturnOnwards(cfg: Config, m: Machine, ok: bool)
    requires Inv(m) && m.task.Some? && m.pc == Returned(ok)
    ensures Onwards(m, ReturnedStep(cfg, m, m.task.value, ok))
  {
    hide TaskOk, Books, Committed, Ids, Marked, PlanAccepted;
  }

  lemma GoOnwards(cfg: Config, m: Machine, a: Answer)
    requires Inv(m) && m.task.Some?
    ensures Onwards(m, GoOn(cfg, m, m.task.value, a))
  {
    hide Inv, Onwards, AskStep, ExecuteStep, ReturnedStep;
    match m.pc
    case Asking => AskOnwards(cfg, m, a.model);
    case Executing(_, _) => ExecuteOnwards(m, a.outcome);
    case Returned(ok) => ReturnOnwards(cfg, m, ok);
    case _ =>
      hide GoOn;
      GoStays(cfg, m, a);
      StaysOnwards(m, GoOn(cfg, m, m.task.value, a));
  }

  lemma MemoryOk(m: Machine)
    requires Inv(m) && m.task.Some?
    ensures TaskOk(m.task.value)
  {
  }

  lemma CancelledOk(t: Task, reason: string)
    requires TaskOk(t)
    ensures TaskOk(t.(state := Cancelled, pauseReason := Some(reason)))
  {
  }

  lemma ResumedOk(t: Task, sequence: int)
    requires TaskOk(t)
    ensures TaskOk(t.(pending := After(t.pending, sequence), state := Running, pauseReason := None))
  {
  }

  lemma CallStays(cfg: Config, m: Machine, c: Choice)
    requires Inv(m) && m.disk.Some? && m.pc == Idle && !(c.Start? && m.task.None?)
    ensures Stays(m, Call(cfg, m, c))
  {
    hide Emit, Books, Committed, Ids, After, PcOk, Stays, PlanAccepted, FailedTask, TaskOk;
    PcStays(m, m);
    if m.task.Some? {
      var t := m.task.value;
      MemoryOk(m);
      FailStays(cfg, m);
      match c
      case Ack(sequence) =>
        var u := t.(pending := After(t.pending, sequence));
        PcStays(m, m.(task := Some(u)));
        if u.state == Paused {
          ResumedOk(t, sequence);
          EmitStays(cfg, m, u.(state := Running, pauseReason := None), RuntimeResumed, Idle);
        }
      case Checkpoint => EmitStays(cfg, m, t, TaskCheckpoint, Idle);
      case Cancel(reason) =>
        CancelledOk(t, reason);
        if t.state != Failed {
          EmitStays(cfg, m, t.(state := Cancelled, pauseReason := Some(reason)), TaskCancelled, Idle);
        }
      case Monitor(_) =>
      case _ => PcStays(m, Call(cfg, m, c));
    } else {
      PcStays(m, Call(cfg, m, c));
    }
  }

  /** A start that does not throw: the task is not in memory. */
  predicate StartsAfresh(m: Machine, c: Choice) {
    c.Start? && m.pc == Idle && m.task.None?
  }

  lemma MicroOnwards(cfg: Config, m: Machine, c: Choice)
    requires Inv(m) && m.disk.Some? && !StartsAfresh(m, c)
    ensures Onwards(m, Micro(cfg, m, c))
  {
    hide GoOn, Call, Inv;
    if c.Crash? {
    } else if m.pc == Idle {
      CallStays(cfg, m, c);
      StaysOnwards(m, Call(cfg, m, c));
    } else if c.Go? && m.task.Some? {
      GoOnwards(cfg, m, c.answer);
    }
  }

  /** No call in the run starts the task afresh. */
  ghost predicate NoFreshStart(cfg: Config, m: Machine, cs: seq<Choice>)
    decreases |cs|
  {
    cs != [] ==>
      && NoFreshStart(cfg, m, cs[..|cs| - 1])
      && !StartsAfresh(Run(cfg, m, cs[..|cs| - 1]), cs[|cs| - 1])
  }

  /** What `n` has executed beyond `m`, none of it among `done`. */
  ghost predicate Extends(m: seq<Id>, n: seq<Id>, done: seq<Id>) {
    m <= n && forall k | |m| <= k < |n| :: n[k] !in done
  }

  lemma ExtendsOne(m: Machine, k: Machine, n: Machine, done: seq<Id>)
    requires m.disk.Some? && k.disk.Some? && Later(m.disk.value, k.disk.value) && Onwards(k, n)
    requires Extends(m.world.executed, k.world.executed, done) && (k.pc.Executing? ==> k.pc.action !in done)
    ensures n.disk.Some? && Later(m.disk.value, n.disk.value) && n.world.past == k.world.past
    ensures Extends(m.world.executed, n.world.executed, done)
  {
  }

  lemma {:induction false} RunOnwards(cfg: Config, m: Machine, cs: seq<Choice>)
    requires Inv(m) && m.disk.Some? && NoFreshStart(cfg, m, cs)
    ensures var n := Run(cfg, m, cs);
            && n.disk.Some? && Later(m.disk.value, n.disk.value) && n.world.past == m.world.past
            && Extends(m.world.executed, n.world.executed, DoneOf(m.disk.value))
    decreases |cs|
  {
    if cs != [] {
      hide Inv, Micro, Extends, Onwards, Later, DoneOf;
      var k := Run(cfg, m, cs[..|cs| - 1]);
      RunOnwards(cfg, m, cs[..|cs| - 1]);
      RunKeeps(cfg, m, cs[..|cs| - 1]);
      MicroOnwards(cfg, k, cs[|cs| - 1]);
      AnnouncedIsNew(m, k);
      ExtendsOne(m, k, Micro(cfg, k, cs[|cs| - 1]), DoneOf(m.disk.value));
    } else {
      hide Inv;
    }
  }

  lemma AnnouncedIsNext(n: Machine)
    requires Inv(n) && n.pc.Executing?
    ensures n.disk.Some?
    ensures var d := n.disk.value;
            PlanAccepted(PlanOf(d)) && d.cursor < |PlanOf(d)| && n.pc.action == PlanOf(d)[d.cursor]
  {
    hide Committed, Ids, Books, PlanAccepted;
  }

  lemma DoneFits(m: Machine)
    requires Inv(m) && m.disk.Some?
    ensures m.disk.value.cursor <= |PlanOf(m.disk.value)|
  {
    hide Committed, Ids, Books, PlanAccepted, PcOk;
  }

  lemma AnnouncedIsNew(m: Machine, n: Machine)
    requires Inv(m) && Inv(n) && m.disk.Some? && n.disk.Some? && Later(m.disk.value, n.disk.value)
    ensures n.pc.Executing? ==> n.pc.action !in DoneOf(m.disk.value)
  {
    if n.pc.Executing? {
      AnnouncedIsNext(n);
      DoneFits(m);
      hide Inv;
      var p, d := PlanOf(n.disk.value), m.disk.value;
      assert PlanOf(d) == p || d.cursor == 0;
      assert forall i | 0 <= i < d.cursor :: p[i] != n.pc.action;
    }
  }

  /** Once a checkpoint has an action's commit, no later step executes that action, unless the task
      is started afresh; and checkpoints never lose a commit or an event. */
  lemma CommittedNeverRunsAgain(cfg: Config, before: seq<Choice>, after: seq<Choice>)
    requires Run(cfg, Initial(), before).disk.Some? && NoFreshStart(cfg, Run(cfg, Initial(), before), after)
    ensures var m := Run(cfg, Initial(), before);
            var n := Run(cfg, m, after);
            && n.disk.Some? && m.world.executed <= n.world.executed
            && (forall k | |m.world.executed| <= k < |n.world.executed| ::
                  n.world.executed[k] !in Committed(m.disk.value.journal))
            && Committed(m.disk.value.journal) <= Committed(n.disk.value.journal)
            && m.disk.value.events <= n.disk.value.events
  {
    var m := Run(cfg, Initial(), before);
    RunKeeps(cfg, Initial(), before);
    hide Inv, Run;
    RunOnwards(cfg, m, after);
    RunKeeps(cfg, m, after);
    GrownCommits(m, Run(cfg, m, after));
  }

  lemma GrownCommits(m: Machine, n: Machine)
    requires Inv(m) && Inv(n) && m.disk.Some? && n.disk.Some? && Later(m.disk.value, n.disk.value)
    ensures Committed(m.disk.value.journal) == DoneOf(m.disk.value)
    ensures Committed(m.disk.value.journal) <= Committed(n.disk.value.journal)
  {
    hide Committed, Ids, Books;
    var p, q := PlanOf(m.disk.value), PlanOf(n.disk.value);
    assert p != [] ==> p == q;
    assert p[..m.disk.value.cursor] <= q[..n.disk.value.cursor];
  }

  // --- when nothing is executed twice ---

  ghost predicate Tidy(m: Machine) {
    m.disk.Some? ==>
      var d := m.disk.value;
      && NoDup(m.world.executed)
      && forall a <- m.world.executed ::
           || a in DoneOf(d)
           || ((d.state == Failed || Exposed(m.pc)) && d.cursor < |PlanOf(d)| && a == PlanOf(d)[d.cursor])
  }

  lemma StillTidy(m: Machine, n: Machine)
    requires Tidy(m) && Stays(m, n)
    ensures Tidy(n)
  {
  }

  lemma Within(s: seq<Id>, done: seq<Id>)
    requires forall a <- s :: a in done
    ensures done == [] ==> s == []
  {
    if s != [] {
      assert s[0] in done;
    }
  }

  /** With nothing exposed, only committed actions have run. */
  lemma SettledTidy(m: Machine)
    requires Tidy(m) && m.disk.Some? && m.disk.value.state != Failed && !Exposed(m.pc)
    ensures forall a <- m.world.executed :: a in DoneOf(m.disk.value)
    ensures DoneOf(m.disk.value) == [] ==> m.world.executed == []
  {
    Within(m.world.executed, DoneOf(m.disk.value));
  }

  lemma AskTidy(cfg: Config, m: Machine, answer: ModelAnswer)
    requires Inv(m) && Tidy(m) && m.pc == Asking
    ensures Tidy(AskStep(cfg, m, m.task.value, answer))
  {
    hide Emit, Books, Committed, Ids, PlanAccepted;
    SettledTidy(m);
    assert m.world.executed == [];
  }

  lemma ExecuteTidy(m: Machine, outcome: Outcome)
    requires Inv(m) && Tidy(m) && m.pc.Executing?
    ensures Tidy(ExecuteStep(m, outcome))
  {
    hide Books, Committed, Ids;
    SettledTidy(m);
    AnnouncedIsNew(m, m);
  }

  lemma ReturnedTidy(cfg: Config, m: Machine, ok: bool)
    requires Inv(m) && Tidy(m) && m.pc == Returned(ok)
    ensures Tidy(ReturnedStep(cfg, m, m.task.value, ok))
  {
    hide Books, Committed, Ids, Marked, PlanAccepted;
    var d, e := m.disk.value, ReturnedStep(cfg, m, m.task.value, ok).disk.value;
    assert DoneOf(e) == DoneOf(d) + [PlanOf(d)[d.cursor]];
  }

  lemma GoTidy(cfg: Config, m: Machine, a: Answer)
    requires Inv(m) && Tidy(m) && m.task.Some?
    ensures Tidy(GoOn(cfg, m, m.task.value, a))
  {
    match m.pc
    case Asking => AskTidy(cfg, m, a.model);
    case Executing(_, _) => ExecuteTidy(m, a.outcome);
    case Returned(ok) => ReturnedTidy(cfg, m, ok);
    case _ =>
      hide GoOn, Inv, Tidy, Stays;
      GoStays(cfg, m, a);
      StillTidy(m, GoOn(cfg, m, m.task.value, a));
  }

  lemma CallTidy(cfg: Config, m: Machine, c: Choice)
    requires Inv(m) && Tidy(m) && m.pc == Idle
    ensures Tidy(Call(cfg, m, c))
  {
    if m.disk.Some? && !(c.Start? && m.task.None?) {
      hide Call, Inv, Tidy, Stays;
      CallStays(cfg, m, c);
      StillTidy(m, Call(cfg, m, c));
    }
  }

  ghost predicate CrashesOutsideTheWindow(cfg: Config, m: Machine, cs: seq<Choice>)
    decreases |cs|
  {
    cs != [] ==>
      && CrashesOutsideTheWindow(cfg, m, cs[..|cs| - 1])
      && (cs[|cs| - 1].Crash? ==> !Exposed(Run(cfg, m, cs[..|cs| - 1]).pc))
  }

  /** Executions repeat only across a crash between an execution and the checkpoint that settles
      it: without one, no action runs twice from one start to the next. */
  lemma {:induction false} OnceUnlessCrashedInTheWindow(cfg: Config, cs: seq<Choice>)
    requires CrashesOutsideTheWindow(cfg, Initial(), cs)
    ensures var m := Run(cfg, Initial(), cs);
            Tidy(m) && (m.disk.Some? ==> NoDup(m.world.executed))
    decreases |cs|
  {
    if cs != [] {
      var front, c := cs[..|cs| - 1], cs[|cs| - 1];
      OnceUnlessCrashedInTheWindow(cfg, front);
      RunKeeps(cfg, Initial(), front);
      MicroTidy(cfg, Run(cfg, Initial(), front), c);
    }
  }

  lemma MicroTidy(cfg: Config, m: Machine, c: Choice)
    requires Inv(m) && Tidy(m) && (c.Crash? ==> !Exposed(m.pc))
    ensures Tidy(Micro(cfg, m, c))
  {
    hide Inv, GoOn, Call;
    if c.Crash? {
    } else if m.pc == Idle {
      CallTidy(cfg, m, c);
    } else if c.Go? && m.task.Some? {
      GoTidy(cfg, m, c.answer);
    }
  }

  lemma RunOne(cfg: Config, m: Machine, cs: seq<Choice>, k: nat)
    requires k < |cs|
    ensures Run(cfg, m, cs[..k + 1]) == Micro(cfg, Run(cfg, m, cs[..k]), cs[k])
  {
    assert cs[..k + 1][..k] == cs[..k];
  }

  /** What the loop is told in the run below. */
  function Told(): Choice {
    Go(Answer(1, Response("r", ["a"]), Allow, Returns(true)))
  }

  /** Start, heartbeat, plan, prepare, execute. */
  function Opening(): seq<Choice> {
    [Start(1), Told(), Told(), Told(), Told()]
  }

  /** The process dies before the commit is saved; recover; again heartbeat, prepare, execute. */
  function Interrupted(): seq<Choice> {
    Opening() + [Crash, Recover(1), Step] + [Told(), Told(), Told()]
  }

  /** The state a run is in, as far as the next steps depend on it. */
  predicate At(m: Machine, pc: Pc, inMemory: bool, events: nat, executed: seq<Id>) {
    && m.pc == pc && m.task.Some? == inMemory && m.disk.Some? && m.world.executed == executed
    && (inMemory ==> m.task.value.state == Running && m.task.value.cursor == 0 && |m.task.value.pending| == events
                     && (m.task.value.plan == if events <= 3 then None else Some(["a"])))
    && m.disk.value.state == Running && m.disk.value.cursor == 0 && |m.disk.value.pending| == events
    && (m.disk.value.plan == if events <= 3 then None else Some(["a"]))
  }

  lemma HeartbeatAt(cfg: Config, m: Machine, events: nat, executed: seq<Id>)
    requires cfg.maxOutstanding >= 64 && At(m, Entering, true, events, executed) && 2 <= events < 60 && events != 3
    ensures At(Micro(cfg, m, Told()), if events == 2 then Asking else Looping, true, events + 1, executed)
  {
  }

  lemma PlanAt(cfg: Config, m: Machine)
    requires cfg.maxOutstanding >= 64 && At(m, Asking, true, 3, []) && m.task.value.responseId == None
    ensures At(Micro(cfg, m, Told()), Looping, true, 4, [])
  {
    assert PlanAccepted(["a"]);
  }

  lemma PrepareAt(cfg: Config, m: Machine, events: nat, executed: seq<Id>)
    requires cfg.maxOutstanding >= 64 && At(m, Looping, true, events, executed) && 4 <= events < 60
    ensures At(Micro(cfg, m, Told()), Executing("a", false), true, events + 1, executed)
    ensures Micro(cfg, m, Told()).world.past == m.world.past
  {
  }

  lemma ExecuteAt(cfg: Config, m: Machine, events: nat, executed: seq<Id>)
    requires At(m, Executing("a", false), true, events, executed)
    ensures At(Micro(cfg, m, Told()), Returned(true), true, events, executed + ["a"])
    ensures Micro(cfg, m, Told()).world.past == m.world.past
  {
  }

  lemma RestartAt(cfg: Config, m: Machine)
    requires At(m, Returned(true), true, 5, ["a"])
    ensures At(Micro(cfg, Micro(cfg, Micro(cfg, m, Crash), Recover(1)), Step), Entering, true, 5, ["a"])
  {
  }

  lemma FreshStart(cfg: Config, m: Machine)
    requires cfg.maxOutstanding >= 64 && m.task.None? && m.pc == Idle
    ensures var n := Micro(cfg, m, Start(1));
            && At(n, Entering, true, 2, []) && n.task.value.responseId == None
            && n.world.past == m.world.past + m.world.executed
  {
  }

  /** Heartbeat, plan, prepare and execute, from a fresh start. */
  lemma ToFirstExecution(cfg: Config, m: Machine)
    requires cfg.maxOutstanding >= 64 && At(m, Entering, true, 2, []) && m.task.value.responseId == None
    ensures var n := Micro(cfg, Micro(cfg, Micro(cfg, Micro(cfg, m, Told()), Told()), Told()), Told());
            At(n, Returned(true), true, 5, ["a"]) && n.world.executed == ["a"] && n.world.past == m.world.past
  {
    var m1 := Micro(cfg, m, Told());
    assert m1.task.value.responseId == None && m1.world.past == m.world.past;
    HeartbeatAt(cfg, m, 2, []);
    assert At(m1, Asking, true, 3, []);
    var m2 := Micro(cfg, m1, Told());
    assert m2.world.past == m1.world.past;
    PlanAt(cfg, m1);
    hide Told, Emit, Micro;
    PrepareAt(cfg, m2, 4, []);
    ExecuteAt(cfg, Micro(cfg, m2, Told()), 5, []);
    assert [] + ["a"] == ["a"];
  }

  lemma ToSecondExecution(cfg: Config, m: Machine)
    requires cfg.maxOutstanding >= 64 && At(m, Returned(true), true, 5, ["a"])
    ensures var again := Micro(cfg, Micro(cfg, Micro(cfg, m, Crash), Recover(1)), Step);
            Micro(cfg, Micro(cfg, Micro(cfg, again, Told()), Told()), Told()).world.executed == ["a", "a"]
  {
    hide Told, Emit, Micro;
    var again := Micro(cfg, Micro(cfg, Micro(cfg, m, Crash), Recover(1)), Step);
    RestartAt(cfg, m);
    HeartbeatAt(cfg, again, 5, ["a"]);
    PrepareAt(cfg, Micro(cfg, again, Told()), 6, ["a"]);
    ExecuteAt(cfg, Micro(cfg, Micro(cfg, again, Told()), Told()), 7, ["a"]);
    assert ["a"] + ["a"] == ["a", "a"];
  }

  lemma RunThree(cfg: Config, m: Machine, a: Choice, b: Choice, c: Choice)
    ensures Run(cfg, m, [a, b, c]) == Micro(cfg, Micro(cfg, Micro(cfg, m, a), b), c)
  {
    hide Micro;
    var cs := [a, b, c];
    RunOne(cfg, m, cs, 0);
    RunOne(cfg, m, cs, 1);
    RunOne(cfg, m, cs, 2);
    assert cs[..0] == [] && cs[..3] == cs;
  }

  /** From any state without the task in memory, the opening executes the action once more. */
  lemma OpeningExecutes(cfg: Config, m: Machine)
    requires cfg.maxOutstanding >= 64 && m.task.None? && m.pc == Idle
    ensures var n := Run(cfg, m, Opening());
            && At(n, Returned(true), true, 5, ["a"]) && n.world.executed == ["a"]
            && n.world.past == m.world.past + m.world.executed
  {
    FreshStart(cfg, m);
    hide Micro, At, Told;
    var t, m1 := Told(), Micro(cfg, m, Start(1));
    ToFirstExecution(cfg, m1);
    RunThree(cfg, m, Start(1), t, t);
    var m3 := Run(cfg, m, [Start(1), t, t]);
    RunAppend(cfg, m, [Start(1), t, t], [t, t]);
    assert Opening() == [Start(1), t, t] + [t, t];
    RunOne(cfg, m3, [t, t], 0);
    RunOne(cfg, m3, [t, t], 1);
    assert [t, t][..0] == [] && [t, t][..2] == [t, t];
  }

  /** Cut off between the execution and its commit, the recovered task executes the action again. */
  lemma InterruptedActionRunsAgain(cfg: Config)
    requires cfg.maxOutstanding >= 64
    ensures Run(cfg, Initial(), Interrupted()).world.executed == ["a", "a"]
  {
    hide Micro, Run, Told, Opening, At;
    var m, t := Initial(), Told();
    OpeningExecutes(cfg, m);
    RunAppend(cfg, m, Opening(), [Crash, Recover(1), Step]);
    RunAppend(cfg, m, Opening() + [Crash, Recover(1), Step], [t, t, t]);
    var n := Run(cfg, m, Opening());
    RunThree(cfg, n, Crash, Recover(1), Step);
    RunThree(cfg, Run(cfg, n, [Crash, Recover(1), Step]), t, t, t);
    ToSecondExecution(cfg, n);
  }

  /** Start and commit the one action of the plan; the process dies; start the same task again. */
  function FirstCommit(): seq<Choice> {
    Opening() + [Told()]
  }

  function StartedAfresh(): seq<Choice> {
    FirstCommit() + [Crash] + Opening()
  }

  lemma CommitThenCrash(cfg: Config, m: Machine)
    requires cfg.maxOutstanding >= 64 && At(m, Returned(true), true, 5, ["a"])
    ensures var n := Micro(cfg, m, Told());
            && n.disk.Some? && n.disk.value.cursor == 1 && n.disk.value.plan == Some(["a"])
            && n.world == m.world && Micro(cfg, n, Crash) == Machine(None, n.disk, m.world, Idle)
  {
  }

  lemma CommittedAfter(cfg: Config, cs: seq<Choice>)
    ensures var d := Run(cfg, Initial(), cs).disk;
            d.Some? && d.value.cursor == 1 && d.value.plan == Some(["a"]) ==> Committed(d.value.journal) == ["a"]
  {
    hide Run, Committed, Ids;
    EveryRunKeepsTheBooks(cfg, cs);
    assert ["a"][..1] == ["a"];
  }

  lemma CommitCrashed(cfg: Config, m: Machine)
    requires cfg.maxOutstanding >= 64 && At(m, Returned(true), true, 5, ["a"])
    ensures var n := Run(cfg, m, [Told()]);
            && n.disk.Some? && n.disk.value.cursor == 1 && n.disk.value.plan == Some(["a"])
            && Run(cfg, n, [Crash]) == Machine(None, n.disk, m.world, Idle)
  {
    CommitThenCrash(cfg, m);
    hide Micro, At, Told;
    RunOne(cfg, m, [Told()], 0);
    assert [Told()][..0] == [] && [Told()][..1] == [Told()];
    RunOne(cfg, Run(cfg, m, [Told()]), [Crash], 0);
    assert [Crash][..0] == [] && [Crash][..1] == [Crash];
  }

  /** The saved commits protect a task that is recovered.  Starting the task again instead discards
      them: the committed action runs a second time. */
  lemma StartingAfreshRunsItAgain(cfg: Config)
    requires cfg.maxOutstanding >= 64
    ensures var committed, again := Run(cfg, Initial(), FirstCommit()), Run(cfg, Initial(), StartedAfresh());
            && committed.disk.Some? && Committed(committed.disk.value.journal) == ["a"]
            && again.world.past == ["a"] && again.world.executed == ["a"]
  {
    hide Micro, Run, Told, Opening, At, Committed;
    var m := Initial();
    OpeningExecutes(cfg, m);
    RunAppend(cfg, m, Opening(), [Told()]);
    CommitCrashed(cfg, Run(cfg, m, Opening()));
    CommittedAfter(cfg, FirstCommit());
    RunAppend(cfg, m, FirstCommit(), [Crash]);
    RunAppend(cfg, m, FirstCommit() + [Crash], Opening());
    OpeningExecutes(cfg, Run(cfg, m, FirstCommit() + [Crash]));
    assert [] + ["a"] == ["a"];
  }
}
