/** Exactly when an action can run again: after a crash between an execution and the checkpoint that
    settles it, or after the task is started afresh. */
module AgentLoopRepeats {
  import opened Words
  import opened AgentLoopModel
  import opened AgentLoopRuns

  predicate Terminal(s: State) {
    s == Completed || s == Failed || s == Cancelled
  }

  /** The checkpoint does not know that the next action of an unfinished task has run. */
  ghost predicate Unsettled(m: Machine) {
    && m.disk.Some?
    && var d := m.disk.value;
       !Terminal(d.state) && d.cursor < |PlanOf(d)| && PlanOf(d)[d.cursor] in m.world.executed
  }

  /** The run from `before` to `after` executed something `before` already had. */
  ghost predicate Repeats(before: seq<Id>, after: seq<Id>) {
    before <= after && exists k | |before| <= k < |after| :: after[k] in before
  }

  // --- what has run is done or next ---

  ghost predicate Covered(m: Machine) {
    m.disk.Some? ==>
      var d := m.disk.value;
      forall a <- m.world.executed ::
        a in DoneOf(d) || (d.cursor < |PlanOf(d)| && a == PlanOf(d)[d.cursor])
  }

  lemma StaysCovered(m: Machine, n: Machine)
    requires Covered(m) && Stays(m, n)
    ensures Covered(n)
  {
  }

  lemma AskCovered(cfg: Config, m: Machine, answer: ModelAnswer)
    requires Inv(m) && Covered(m) && m.pc == Asking
    ensures Covered(AskStep(cfg, m, m.task.value, answer))
  {
    hide Emit, Books, Committed, Ids, PlanAccepted;
    assert DoneOf(m.disk.value) == [] && PlanOf(m.disk.value) == [];
    Within(m.world.executed, DoneOf(m.disk.value));
  }

  lemma ReturnedCovered(cfg: Config, m: Machine, ok: bool)
    requires Inv(m) && Covered(m) && m.pc == Returned(ok)
    ensures Covered(ReturnedStep(cfg, m, m.task.value, ok))
  {
    hide Emit, Books, Committed, Ids, Marked, PlanAccepted;
    var d, e := m.disk.value, ReturnedStep(cfg, m, m.task.value, ok).disk.value;
    EmitKeepsPlan(cfg, Committing(m.task.value), ActionResult);
    assert DoneOf(e) == DoneOf(d) + [PlanOf(d)[d.cursor]];
  }

  lemma EmitKeepsPlan(cfg: Config, t: Task, kind: EventKind)
    ensures var u := Emit(cfg, t, kind);
            && u.plan == t.plan && u.cursor == t.cursor && u.responseId == t.responseId
            && |u.pending| == |t.pending| + 1
            && (|u.pending| < cfg.maxOutstanding ==> u.state == t.state)
            && (u.state == t.state || u.state == Paused)
  {
  }

  lemma ExecuteCovered(m: Machine, outcome: Outcome)
    requires Inv(m) && Covered(m) && m.pc.Executing?
    ensures Covered(ExecuteStep(m, outcome))
  {
    hide Books, Committed, Ids, PlanAccepted;
  }

  lemma GoCovered(cfg: Config, m: Machine, a: Answer)
    requires Inv(m) && Covered(m) && m.task.Some?
    ensures Covered(GoOn(cfg, m, m.task.value, a))
  {
    match m.pc
    case Asking => AskCovered(cfg, m, a.model);
    case Executing(_, _) => ExecuteCovered(m, a.outcome);
    case Returned(ok) => ReturnedCovered(cfg, m, ok);
    case _ =>
      hide GoOn, Inv, Covered, Stays;
      GoStays(cfg, m, a);
      StaysCovered(m, GoOn(cfg, m, m.task.value, a));
  }

  lemma MicroCovered(cfg: Config, m: Machine, c: Choice)
    requires Inv(m) && Covered(m)
    ensures Covered(Micro(cfg, m, c))
  {
    if c.Crash? {
    } else if m.pc == Idle {
      if m.disk.Some? && !StartsAfresh(m, c) {
        hide Call, Inv, Covered, Stays;
        CallStays(cfg, m, c);
        StaysCovered(m, Call(cfg, m, c));
      }
    } else if c.Go? && m.task.Some? {
      hide GoOn;
      GoCovered(cfg, m, c.answer);
    }
  }

  lemma {:induction false} RunCovered(cfg: Config, cs: seq<Choice>)
    ensures Covered(Run(cfg, Initial(), cs))
    decreases |cs|
  {
    if cs != [] {
      hide Inv, Covered, Micro;
      RunCovered(cfg, cs[..|cs| - 1]);
      BootOk();
      RunKeeps(cfg, Initial(), cs[..|cs| - 1]);
      MicroCovered(cfg, Run(cfg, Initial(), cs[..|cs| - 1]), cs[|cs| - 1]);
    }
  }

  lemma BootOk()
    ensures Inv(Initial())
  {
  }

  // --- what is over stays over ---

  ghost predicate Over(m: Machine) {
    && m.disk.Some? && Terminal(m.disk.value.state) && (m.pc == Idle || m.pc == Entering)
    && (m.task.Some? ==> m.task.value.state == m.disk.value.state)
  }

  lemma OverStays(cfg: Config, m: Machine, c: Choice)
    requires Over(m) && !StartsAfresh(m, c)
    ensures Over(Micro(cfg, m, c)) && Micro(cfg, m, c).world.executed == m.world.executed
  {
    hide After;
  }

  lemma {:induction false} OverRuns(cfg: Config, m: Machine, cs: seq<Choice>)
    requires Over(m) && NoFreshStart(cfg, m, cs)
    ensures Over(Run(cfg, m, cs)) && Run(cfg, m, cs).world.executed == m.world.executed
    decreases |cs|
  {
    if cs != [] {
      hide Over, Micro;
      OverRuns(cfg, m, cs[..|cs| - 1]);
      OverStays(cfg, Run(cfg, m, cs[..|cs| - 1]), cs[|cs| - 1]);
    }
  }

  // --- waking a task up, whatever its checkpoint ---

  const SAYS_ALLOW: Choice := Go(Answer(1, Malformed, Allow, Returns(true)))

  ghost predicate NoStart(cs: seq<Choice>) {
    forall i | 0 <= i < |cs| :: !cs[i].Start?
  }

  lemma {:induction false} NoStartIsNoFreshStart(cfg: Config, m: Machine, cs: seq<Choice>)
    requires NoStart(cs)
    ensures NoFreshStart(cfg, m, cs)
    decreases |cs|
  {
    if cs != [] {
      NoStartIsNoFreshStart(cfg, m, cs[..|cs| - 1]);
    }
  }

  function Newest(pending: seq<Event>): int {
    if pending == [] then -1
    else
      var front, last := Newest(pending[..|pending| - 1]), pending[|pending| - 1].sequence;
      if last > front then last else front
  }

  lemma {:induction false} NewestAcksAll(pending: seq<Event>, sequence: int)
    requires Newest(pending) <= sequence
    ensures After(pending, sequence) == [] && sequence >= -1
    decreases |pending|
  {
    if pending != [] {
      NewestAcksAll(pending[..|pending| - 1], sequence);
    }
  }

  /** As far as the next action goes, `e` is the checkpoint `d`: same plan, same place, going on. */
  predicate GoesOn(d: Task, e: Task) {
    && e.plan == d.plan && e.cursor == d.cursor && e.responseId == d.responseId
    && !Terminal(e.state) && e.state != AwaitingApproval
  }

  /** Back in memory and idle, nothing executed since. */
  ghost predicate Back(m: Machine, n: Machine) {
    && Inv(n) && n.pc == Idle && n.task.Some? && n.world == m.world
    && m.disk.Some? && n.disk.Some? && GoesOn(m.disk.value, n.disk.value)
  }

  lemma Recovers(cfg: Config, m: Machine)
    requires Inv(m) && m.disk.Some? && GoesOn(m.disk.value, m.disk.value)
    ensures Back(m, Micro(cfg, Micro(cfg, m, Crash), Recover(1)))
  {
    hide GoOn, AckCall, ApproveCall, MonitorCall, CancelCall, StartCall, Inv;
    MicroKeeps(cfg, m, Crash);
    MicroKeeps(cfg, Micro(cfg, m, Crash), Recover(1));
  }

  /** Acknowledging everything leaves the task unpaused, with at most the event that says so. */
  lemma Resumes(cfg: Config, m: Machine, n: Machine)
    requires cfg.maxOutstanding >= 2 && Back(m, n)
    ensures var t := n.task.value;
            var k := Micro(cfg, n, Ack(Newest(t.pending)));
            && Back(m, k) && k.task.value.state != Paused && |k.task.value.pending| <= 1
            && (t.state != Paused ==> k.task.value.pending == [])
  {
    var t := n.task.value;
    NewestAcksAll(t.pending, Newest(t.pending));
    MicroKeeps(cfg, n, Ack(Newest(t.pending)));
    PauseIsBackpressure(n);
    Acknowledged(cfg, n, Newest(t.pending));
    hide Inv, After, Newest, Micro;
  }

  lemma Acknowledged(cfg: Config, n: Machine, sequence: int)
    requires cfg.maxOutstanding >= 2 && n.pc == Idle && n.task.Some? && n.disk.Some?
    requires Agree(n.task.value, n.disk.value) && After(n.task.value.pending, sequence) == [] && sequence >= -1
    requires n.task.value.state == Paused ==> n.task.value.pauseReason == Some("backpressure")
    ensures var t, k := n.task.value, Micro(cfg, n, Ack(sequence));
            && k.pc == Idle && k.task.Some? && k.disk.Some? && k.world == n.world
            && (GoesOn(n.disk.value, n.disk.value) ==> GoesOn(n.disk.value, k.disk.value))
            && k.task.value.state != Paused && |k.task.value.pending| <= 1
            && (t.state != Paused ==> k.task.value.pending == [])
  {
    var u := n.task.value.(pending := [], state := Running, pauseReason := None);
    EmitKeepsPlan(cfg, u, RuntimeResumed);
    hide Emit, After;
  }

  lemma PauseIsBackpressure(n: Machine)
    requires Inv(n) && n.task.Some?
    ensures n.disk.Some? && Agree(n.task.value, n.disk.value)
    ensures n.task.value.state == Paused ==> n.task.value.pauseReason == Some("backpressure")
  {
    hide Committed, Ids, Books, PlanAccepted, PcOk;
  }

  /** Step and beat: at the plan, or at the model if there is none. */
  lemma Beats(cfg: Config, m: Machine, n: Machine)
    requires cfg.maxOutstanding >= 2 && Back(m, n) && n.task.value.pending == [] && n.task.value.state != Paused
    ensures var k := Micro(cfg, Micro(cfg, n, Step), SAYS_ALLOW);
            && Inv(k) && k.world == m.world && k.task.Some? && k.task.value.state != Paused
            && k.disk.Some? && GoesOn(m.disk.value, k.disk.value) && |k.task.value.pending| == 1
            && k.pc == if m.disk.value.plan.None? then Asking else Looping
  {
    MicroKeeps(cfg, n, Step);
    MicroKeeps(cfg, Micro(cfg, n, Step), SAYS_ALLOW);
    PauseIsBackpressure(n);
    Entered(cfg, n);
    hide Inv, Micro;
  }

  lemma Entered(cfg: Config, n: Machine)
    requires cfg.maxOutstanding >= 2 && n.pc == Idle && n.task.Some? && n.disk.Some?
    requires Agree(n.task.value, n.disk.value) && GoesOn(n.disk.value, n.disk.value)
    requires n.task.value.pending == [] && n.task.value.state != Paused
    ensures var k := Micro(cfg, Micro(cfg, n, Step), SAYS_ALLOW);
            && k.world == n.world && k.task.Some? && k.task.value.state != Paused && k.disk.Some?
            && GoesOn(n.disk.value, k.disk.value) && |k.task.value.pending| == 1
            && k.pc == if n.disk.value.plan.None? then Asking else Looping
  {
    EmitKeepsPlan(cfg, n.task.value.(lastHeartbeat := 1), Heartbeat);
    hide Emit;
  }

  /** Crash, recover, acknowledge twice, step: any unfinished task not waiting for approval gets
      going again. */
  lemma WakesUp(cfg: Config, m: Machine) returns (cs: seq<Choice>)
    requires cfg.maxOutstanding >= 2 && Inv(m) && m.disk.Some? && GoesOn(m.disk.value, m.disk.value)
    ensures NoStart(cs) && cs != [] && cs[0] == Crash
    ensures var k := Run(cfg, m, cs);
            && Inv(k) && k.world == m.world && k.task.Some? && k.task.value.state != Paused
            && k.disk.Some? && GoesOn(m.disk.value, k.disk.value) && |k.task.value.pending| == 1
            && k.pc == if m.disk.value.plan.None? then Asking else Looping
  {
    hide Inv, Micro, Newest;
    Recovers(cfg, m);
    var n := Micro(cfg, Micro(cfg, m, Crash), Recover(1));
    Resumes(cfg, m, n);
    var a := Ack(Newest(n.task.value.pending));
    var n1 := Micro(cfg, n, a);
    Resumes(cfg, m, n1);
    var b := Ack(Newest(n1.task.value.pending));
    Beats(cfg, m, Micro(cfg, n1, b));
    cs := [Crash, Recover(1), a] + [b, Step, SAYS_ALLOW];
    RunAppend(cfg, m, [Crash, Recover(1), a], [b, Step, SAYS_ALLOW]);
    RunThree(cfg, m, Crash, Recover(1), a);
    RunThree(cfg, n1, b, Step, SAYS_ALLOW);
  }

  lemma PreparesAndRuns(cfg: Config, k: Machine)
    requires Inv(k) && k.pc == Looping && k.task.value.state != Paused && k.task.value.cursor < |PlanOf(k.task.value)|
    ensures var n := Micro(cfg, Micro(cfg, k, SAYS_ALLOW), SAYS_ALLOW);
            n.world.past == k.world.past
            && n.world.executed == k.world.executed + [PlanOf(k.task.value)[k.task.value.cursor]]
  {
    hide Emit, Committed, Ids, Books, PlanAccepted;
  }

  lemma RunTwo(cfg: Config, m: Machine, a: Choice, b: Choice)
    ensures Run(cfg, m, [a, b]) == Micro(cfg, Micro(cfg, m, a), b)
  {
    hide Micro;
    RunOne(cfg, m, [a, b], 0);
    RunOne(cfg, m, [a, b], 1);
    assert [a, b][..0] == [] && [a, b][..2] == [a, b];
  }

  lemma RunsNextUnlessWaiting(cfg: Config, m: Machine) returns (cs: seq<Choice>)
    requires cfg.maxOutstanding >= 2 && Inv(m) && m.disk.Some? && GoesOn(m.disk.value, m.disk.value)
    requires m.disk.value.cursor < |PlanOf(m.disk.value)|
    ensures NoStart(cs) && cs != [] && cs[0] == Crash
    ensures var n, d := Run(cfg, m, cs), m.disk.value;
            n.world.past == m.world.past && n.world.executed == m.world.executed + [PlanOf(d)[d.cursor]]
  {
    var waking := WakesUp(cfg, m);
    var k := Run(cfg, m, waking);
    assert k.task.value.plan == m.disk.value.plan && k.task.value.cursor == m.disk.value.cursor;
    hide Inv, Micro;
    PreparesAndRuns(cfg, k);
    cs := waking + [SAYS_ALLOW, SAYS_ALLOW];
    RunAppend(cfg, m, waking, [SAYS_ALLOW, SAYS_ALLOW]);
    RunTwo(cfg, k, SAYS_ALLOW, SAYS_ALLOW);
  }

  /** A task waiting for its approval gets it, and is then no longer waiting. */
  lemma Approved(cfg: Config, m: Machine) returns (cs: seq<Choice>)
    requires Inv(m) && m.disk.Some? && m.disk.value.state == AwaitingApproval
    ensures NoStart(cs) && cs != [] && cs[0] == Crash
    ensures var n, d := Run(cfg, m, cs), m.disk.value;
            && Inv(n) && n.disk.Some? && GoesOn(n.disk.value, n.disk.value)
            && PlanOf(n.disk.value) == PlanOf(d) && n.disk.value.cursor == d.cursor
            && n.world.past == m.world.past && n.world.executed == m.world.executed
  {
    hide Inv, Micro;
    WaitingFacts(m);
    var asks := Approve(m.disk.value.confirmation.value.token, true);
    Grants(cfg, m, asks);
    cs := [Crash, Recover(1), asks] + [SAYS_ALLOW];
    RunAppend(cfg, m, [Crash, Recover(1), asks], [SAYS_ALLOW]);
    RunThree(cfg, m, Crash, Recover(1), asks);
    RunOne(cfg, Run(cfg, m, [Crash, Recover(1), asks]), [SAYS_ALLOW], 0);
    assert [SAYS_ALLOW][..0] == [] && [SAYS_ALLOW][..1] == [SAYS_ALLOW];
    RunKeeps(cfg, m, cs);
  }

  lemma WaitingFacts(m: Machine)
    requires Inv(m) && m.disk.Some? && m.disk.value.state == AwaitingApproval
    ensures var d := m.disk.value; d.confirmation.Some? && d.plan.Some? && d.cursor < |d.plan.value|
  {
    hide Committed, Ids, Books, PlanAccepted, PcOk;
  }

  lemma Grants(cfg: Config, m: Machine, asks: Choice)
    requires m.disk.Some? && m.disk.value.state == AwaitingApproval
    requires var d := m.disk.value; d.confirmation.Some? && d.plan.Some? && d.cursor < |d.plan.value|
    requires asks == Approve(m.disk.value.confirmation.value.token, true)
    ensures var n := Micro(cfg, Micro(cfg, Micro(cfg, Micro(cfg, m, Crash), Recover(1)), asks), SAYS_ALLOW);
            && n.disk.Some? && n.disk.value.plan == m.disk.value.plan && n.disk.value.cursor == m.disk.value.cursor
            && (n.disk.value.state == Running || n.disk.value.state == Paused)
            && n.world.past == m.world.past && n.world.executed == m.world.executed
  {
    var c3 := Micro(cfg, Micro(cfg, Micro(cfg, m, Crash), Recover(1)), asks);
    assert c3.pc == Granted && c3.task.Some? && c3.task.value.plan == m.disk.value.plan;
  }

  /** Whatever an unfinished checkpoint holds, after a crash its next action can run. */
  lemma RunsNext(cfg: Config, m: Machine) returns (cs: seq<Choice>)
    requires cfg.maxOutstanding >= 2 && Inv(m) && m.disk.Some? && !Terminal(m.disk.value.state)
    requires m.disk.value.cursor < |PlanOf(m.disk.value)|
    ensures NoStart(cs) && cs != [] && cs[0] == Crash
    ensures var n, d := Run(cfg, m, cs), m.disk.value;
            n.world.past == m.world.past && n.world.executed == m.world.executed + [PlanOf(d)[d.cursor]]
  {
    hide Inv, Run;
    if m.disk.value.state == AwaitingApproval {
      var granted := Approved(cfg, m);
      var rest := RunsNextUnlessWaiting(cfg, Run(cfg, m, granted));
      cs := granted + rest;
      RunAppend(cfg, m, granted, rest);
    } else {
      cs := RunsNextUnlessWaiting(cfg, m);
    }
  }

  // --- crashes ---

  lemma UnsettledRepeats(cfg: Config, m: Machine) returns (more: seq<Choice>)
    requires cfg.maxOutstanding >= 2 && Inv(m) && Unsettled(m)
    ensures var crashed := Micro(cfg, m, Crash);
            NoFreshStart(cfg, crashed, more) && Repeats(m.world.executed, Run(cfg, crashed, more).world.executed)
  {
    var cs := RunsNext(cfg, m);
    more := cs[1..];
    assert cs == [Crash] + more;
    RunAppend(cfg, m, [Crash], more);
    RunOne(cfg, m, [Crash], 0);
    assert [Crash][..0] == [] && [Crash][..1] == [Crash];
    NoStartIsNoFreshStart(cfg, Micro(cfg, m, Crash), more);
    hide Run;
    var after := Run(cfg, Micro(cfg, m, Crash), more).world.executed;
    assert after[|m.world.executed|] in m.world.executed;
  }

  lemma SettledNeverRepeats(cfg: Config, m: Machine, more: seq<Choice>)
    requires Inv(m) && Covered(m) && !Unsettled(m) && NoFreshStart(cfg, Micro(cfg, m, Crash), more)
    ensures !Repeats(m.world.executed, Run(cfg, Micro(cfg, m, Crash), more).world.executed)
  {
    if m.disk.None? {
      assert m.world.executed == [];
      return;
    }
    var crashed, d := Micro(cfg, m, Crash), m.disk.value;
    MicroKeeps(cfg, m, Crash);
    var after := Run(cfg, crashed, more).world.executed;
    if Terminal(d.state) {
      OverRuns(cfg, crashed, more);
    } else {
      hide Inv, Run;
      assert forall a <- m.world.executed :: a in DoneOf(d);
      RunOnwards(cfg, crashed, more);
      assert forall k | |m.world.executed| <= k < |after| :: after[k] !in DoneOf(d);
    }
  }

  /** In every reachable state: a crash here lets some action run again, with no fresh start in
      between, exactly when the next action of an unfinished checkpoint has already run. */
  lemma CrashRepeatsExactlyWhenUnsettled(cfg: Config, cs: seq<Choice>)
    requires cfg.maxOutstanding >= 2
    ensures var m := Run(cfg, Initial(), cs);
            var crashed := Micro(cfg, m, Crash);
            (exists more :: NoFreshStart(cfg, crashed, more)
                            && Repeats(m.world.executed, Run(cfg, crashed, more).world.executed))
            <==> Unsettled(m)
  {
    BootOk();
    RunKeeps(cfg, Initial(), cs);
    RunCovered(cfg, cs);
    var m := Run(cfg, Initial(), cs);
    hide Inv, Run, Micro, Covered, Repeats, NoFreshStart;
    if Unsettled(m) {
      var more := UnsettledRepeats(cfg, m);
    } else {
      hide Unsettled;
      forall more | NoFreshStart(cfg, Micro(cfg, m, Crash), more)
        ensures !Repeats(m.world.executed, Run(cfg, Micro(cfg, m, Crash), more).world.executed)
      {
        SettledNeverRepeats(cfg, m, more);
      }
    }
  }

  lemma ExposedIsUnsettled(m: Machine)
    requires Inv(m) && Exposed(m.pc)
    ensures Unsettled(m)
  {
    hide Committed, Ids, Books, PlanAccepted;
  }

  lemma UnsettledIsExposed(m: Machine)
    requires Inv(m) && Tidy(m) && Unsettled(m)
    ensures Exposed(m.pc)
  {
    hide Committed, Ids, Books, PcOk;
  }

  /** The window is exact: as long as no earlier crash fell into it, a crash lets some action run
      again exactly when it falls between an execution and the checkpoint that settles it. */
  lemma CrashRepeatsExactlyInTheWindow(cfg: Config, cs: seq<Choice>)
    requires cfg.maxOutstanding >= 2 && CrashesOutsideTheWindow(cfg, Initial(), cs)
    ensures var m := Run(cfg, Initial(), cs);
            var crashed := Micro(cfg, m, Crash);
            (exists more :: NoFreshStart(cfg, crashed, more)
                            && Repeats(m.world.executed, Run(cfg, crashed, more).world.executed))
            <==> Exposed(m.pc)
  {
    BootOk();
    RunKeeps(cfg, Initial(), cs);
    OnceUnlessCrashedInTheWindow(cfg, cs);
    CrashRepeatsExactlyWhenUnsettled(cfg, cs);
    var m := Run(cfg, Initial(), cs);
    hide Inv, Run, Micro, Tidy, Repeats, NoFreshStart, Unsettled;
    if Exposed(m.pc) {
      ExposedIsUnsettled(m);
    }
    if Unsettled(m) {
      UnsettledIsExposed(m);
    }
  }

  // --- fresh starts ---

  /** From a checkpoint without a plan, any acceptable plan can be taken. */
  lemma TakesPlan(cfg: Config, m: Machine, id: string, plan: seq<Id>) returns (cs: seq<Choice>)
    requires cfg.maxOutstanding >= 2 && Inv(m) && m.disk.Some? && GoesOn(m.disk.value, m.disk.value)
    requires m.disk.value.plan.None? && m.disk.value.responseId != Some(id) && id != "" && PlanAccepted(plan)
    ensures NoStart(cs)
    ensures var n := Run(cfg, m, cs);
            && Inv(n) && n.world == m.world && n.disk.Some? && GoesOn(n.disk.value, n.disk.value)
            && n.disk.value.plan == Some(plan) && n.disk.value.cursor == m.disk.value.cursor
  {
    hide Inv, Micro;
    var waking := WakesUp(cfg, m);
    var k, says := Run(cfg, m, waking), Go(Answer(1, Response(id, plan), Allow, Returns(true)));
    MemoryAgrees(k);
    AsksAndTakes(cfg, k, id, plan);
    cs := waking + [says];
    RunAppend(cfg, m, waking, [says]);
    RunOne(cfg, k, [says], 0);
    assert [says][..0] == [] && [says][..1] == [says];
    RunKeeps(cfg, k, [says]);
  }

  lemma MemoryAgrees(k: Machine)
    requires Inv(k) && k.task.Some?
    ensures k.disk.Some? && Agree(k.task.value, k.disk.value)
  {
  }

  lemma AsksAndTakes(cfg: Config, k: Machine, id: string, plan: seq<Id>)
    requires Inv(k) && k.pc == Asking && k.task.value.responseId != Some(id) && id != "" && PlanAccepted(plan)
    requires k.disk.Some? && GoesOn(k.disk.value, k.disk.value)
    ensures var n := Micro(cfg, k, Go(Answer(1, Response(id, plan), Allow, Returns(true))));
            && n.world == k.world && n.disk.Some? && GoesOn(n.disk.value, n.disk.value)
            && n.disk.value.plan == Some(plan) && n.disk.value.cursor == k.disk.value.cursor
  {
    PauseIsBackpressure(k);
    hide Inv;
    var u := k.task.value.(responseId := Some(id), plan := Some(plan), turn := k.task.value.turn + 1);
    EmitKeepsPlan(cfg, u, ModelResponse);
    hide Emit, PlanAccepted;
  }

  lemma StartsAtNothing(cfg: Config, m: Machine)
    requires Inv(m)
    ensures var n := Micro(cfg, Micro(cfg, m, Crash), Start(1));
            && n.world.past == m.world.past + m.world.executed && n.world.executed == []
            && n.disk.Some? && GoesOn(n.disk.value, n.disk.value)
            && n.disk.value.plan.None? && n.disk.value.cursor == 0 && n.disk.value.responseId.None?
  {
    hide Committed, Ids, Books;
  }

  /** Started afresh, a task can run the first action of any plan, whatever it had committed. */
  lemma FreshStartRuns(cfg: Config, m: Machine, plan: seq<Id>) returns (rest: seq<Choice>)
    requires cfg.maxOutstanding >= 2 && Inv(m) && PlanAccepted(plan) && plan != []
    ensures NoStart(rest)
    ensures var n := Run(cfg, m, [Crash, Start(1)] + rest);
            n.world.past == m.world.past + m.world.executed && n.world.executed == [plan[0]]
  {
    var opening := [Crash, Start(1)];
    var started := Run(cfg, m, opening);
    RunKeeps(cfg, m, opening);
    RunTwo(cfg, m, Crash, Start(1));
    StartsAtNothing(cfg, m);
    hide Inv, Run, Micro;
    var planned := TakesPlan(cfg, started, "r", plan);
    var running := RunsNext(cfg, Run(cfg, started, planned));
    rest := planned + running;
    RunAppend(cfg, started, planned, running);
    RunAppend(cfg, m, opening, rest);
    assert [] + [plan[0]] == [plan[0]];
  }

  /** A committed action runs again exactly through a fresh start: without one never, with one it
      can, from every reachable checkpoint that commits it. */
  lemma CommittedRunsAgainExactlyByFreshStart(cfg: Config, before: seq<Choice>, a: Id)
    requires cfg.maxOutstanding >= 2 && Run(cfg, Initial(), before).disk.Some?
    requires a in Committed(Run(cfg, Initial(), before).disk.value.journal)
    ensures var m := Run(cfg, Initial(), before);
            && (forall after :: NoFreshStart(cfg, m, after) ==>
                  m.world.executed <= Run(cfg, m, after).world.executed
                  && a !in Run(cfg, m, after).world.executed[|m.world.executed|..])
            && (exists after ::
                  var n := Run(cfg, m, after);
                  n.world.past == m.world.past + m.world.executed && n.world.executed == [a])
  {
    var m := Run(cfg, Initial(), before);
    forall after | NoFreshStart(cfg, m, after)
      ensures m.world.executed <= Run(cfg, m, after).world.executed
              && a !in Run(cfg, m, after).world.executed[|m.world.executed|..]
    {
      CommittedNeverRunsAgain(cfg, before, after);
    }
    BootOk();
    RunKeeps(cfg, Initial(), before);
    CommittedIsNamed(m, a);
    hide Run, Inv, NoFreshStart;
    var rest := FreshStartRuns(cfg, m, [a]);
    var n := Run(cfg, m, [Crash, Start(1)] + rest);
    assert n.world.executed == [a];
  }

  lemma CommittedIsNamed(m: Machine, a: Id)
    requires Inv(m) && m.disk.Some? && a in Committed(m.disk.value.journal)
    ensures PlanAccepted([a])
  {
    hide Committed, Ids, Books, PcOk;
    assert a in DoneOf(m.disk.value);
  }
}
