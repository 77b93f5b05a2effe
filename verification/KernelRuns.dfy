/** Whole runs of the kernel's process and IPC calls, in any order and any number: messages leave
    an endpoint in the order they were accepted, and nobody sleeps on an endpoint that has
    something to say. */
module KernelRuns {
  import opened Words
  import P = ProcessModel
  import F = ProcessForest
  import R = ProcessRuns
  import opened IpcModel
  import opened IpcDelivery

  type Verdicts = v: seq<Verdict> | |v| == P.SLOTS witness seq(P.SLOTS, _ => Copied)

  datatype Op =
    | Process(op: R.Op)
    | MakeEndpoint(authorised: bool, minted: bool)
    | Destroy(obj: Option<nat>)
    | Close(obj: Option<nat>)
    | Call(obj: Option<nat>, opcode: u32, word: u64, verdicts: Verdicts)
    | Receive(obj: Option<nat>, writable: bool)
    | ReceiveWait(obj: Option<nat>, writable: bool, buffer: u64)

  datatype Reply = Reply(answer: Answer, born: u64)

  function Step(k: Kernel, op: Op): (Kernel, Reply) {
    match op
    case Process(p) =>
      var (t, born) := R.Step(k.table, p);
      (RawKernel(t, k.endpoints, k.waitSequence), Reply(Said(Ok), born))
    case MakeEndpoint(authorised, minted) => var (k', a) := IpcCreate(k, authorised, minted); (k', Reply(a, 0))
    case Destroy(obj) => var (k', a) := IpcDestroy(k, obj); (k', Reply(a, 0))
    case Close(obj) => var (k', a) := IpcClose(k, obj); (k', Reply(a, 0))
    case Call(obj, opcode, word, verdicts) => var (k', a) := IpcCall(k, obj, opcode, word, verdicts); (k', Reply(a, 0))
    case Receive(obj, writable) => var (k', a) := IpcReceive(k, obj, writable); (k', Reply(a, 0))
    case ReceiveWait(obj, writable, buffer) =>
      var (k', a) := IpcReceiveWait(k, obj, writable, buffer);
      (k', Reply(a, 0))
  }

  // --- history, from the calls and their answers alone ---

  /** Accepted and handed-out messages of an endpoint's present lifetime. */
  datatype Log = Log(sent: seq<Body>, received: seq<Body>)

  datatype RawHistory = RawHistory(births: F.Births, logs: seq<Log>)

  type History = h: RawHistory | |h.logs| == ENDPOINTS
    witness RawHistory(map[], seq(ENDPOINTS, _ => Log([], [])))

  function Took(l: Log, m: Option<Message>): Log {
    if m.Some? then Log(l.sent, l.received + [BodyOf(m.value)]) else l
  }

  function ObserveLogs(logs: seq<Log>, op: Op, a: Answer): (r: seq<Log>)
    requires |logs| == ENDPOINTS
    ensures |r| == ENDPOINTS
  {
    match op
    case MakeEndpoint(_, _) =>
      if a.made.Some? && a.made.value < ENDPOINTS then logs[a.made.value := Log([], [])] else logs
    case Call(obj, opcode, word, _) =>
      if a.status != Ok || obj.None? || obj.value >= ENDPOINTS then logs
      else
        var l := logs[obj.value];
        var b := Body(opcode, word);
        logs[obj.value := Log(l.sent + [b], if a.taker.Some? then l.received + [b] else l.received)]
    case Receive(obj, _) =>
      if obj.None? || obj.value >= ENDPOINTS then logs else logs[obj.value := Took(logs[obj.value], a.message)]
    case ReceiveWait(obj, _, _) =>
      if obj.None? || obj.value >= ENDPOINTS then logs else logs[obj.value := Took(logs[obj.value], a.message)]
    case _ => logs
  }

  function Observe(h: History, op: Op, r: Reply): History {
    RawHistory(R.Observe(h.births, r.born), ObserveLogs(h.logs, op, r.answer))
  }

  // --- invariants ---

  /** A blocked process waits, in turn, on an open endpoint, which is empty unless the process gave
      a null buffer. */
  ghost predicate WaitOk(k: Kernel, i: nat)
    requires i < P.SLOTS
  {
    var p := k.table.entries[i];
    p.state == P.Blocked ==>
      && p.wait.endpoint < ENDPOINTS && 1 <= p.wait.sequence <= k.waitSequence
      && var e := k.endpoints[p.wait.endpoint];
      && e.active && !e.closed
      && (p.wait.buffer != 0 ==> e.queue == [])
  }

  ghost predicate TurnsDiffer(k: Kernel) {
    forall i: nat, j: nat | i < j < P.SLOTS && k.table.entries[i].state == P.Blocked
        && k.table.entries[j].state == P.Blocked ::
      k.table.entries[i].wait.sequence != k.table.entries[j].wait.sequence
  }

  ghost predicate NoLostWakeup(k: Kernel) {
    TurnsDiffer(k) && forall i: nat | i < P.SLOTS :: WaitOk(k, i)
  }

  /** What was handed out is what was accepted, up to what still queues. */
  ghost predicate LogOk(e: Endpoint, l: Log) {
    && l.received <= l.sent
    && (e.active ==> l.sent == l.received + Bodies(e.queue))
    && |e.queue| <= CAPACITY
  }

  ghost predicate Fifo(k: Kernel, h: History) {
    forall i: nat | i < ENDPOINTS :: LogOk(k.endpoints[i], h.logs[i])
  }

  ghost predicate Inv(k: Kernel, h: History, reaps: nat) {
    R.Inv(k.table, h.births, reaps) && NoLostWakeup(k) && Fifo(k, h)
  }

  // --- table changes that only release waiters ---

  /** Whoever is blocked afterwards was blocked before, in the same wait. */
  ghost predicate SlotCalmer(p: P.Process, q: P.Process) {
    q.state == P.Blocked ==> p.state == P.Blocked && q.wait == p.wait
  }

  ghost predicate Calmer(t: P.Table, t': P.Table) {
    forall i: nat | i < P.SLOTS :: SlotCalmer(t.entries[i], t'.entries[i])
  }

  lemma CalmerKeepsWakeup(k: Kernel, t': P.Table)
    requires NoLostWakeup(k) && Calmer(k.table, t')
    ensures NoLostWakeup(RawKernel(t', k.endpoints, k.waitSequence))
  {
    var k': Kernel := RawKernel(t', k.endpoints, k.waitSequence);
    forall i: nat | i < P.SLOTS ensures WaitOk(k', i) {
      assert WaitOk(k, i) && SlotCalmer(k.table.entries[i], t'.entries[i]);
    }
    forall i: nat, j: nat | i < j < P.SLOTS && t'.entries[i].state == P.Blocked && t'.entries[j].state == P.Blocked
      ensures t'.entries[i].wait.sequence != t'.entries[j].wait.sequence
    {
      assert SlotCalmer(k.table.entries[i], t'.entries[i]) && SlotCalmer(k.table.entries[j], t'.entries[j]);
    }
  }

  /** No operation on processes ever puts one to sleep. */
  lemma ProcessStepsCalm(t: P.Table, op: R.Op)
    ensures Calmer(t, R.Step(t, op).0)
  {
    hide P.IdSlot, P.IdGeneration, P.MakeId, P.DescendantOf, P.Doomed;
    var t' := R.Step(t, op).0;
    forall i: nat | i < P.SLOTS ensures SlotCalmer(t.entries[i], t'.entries[i]) {
    }
  }

  /** Ending a wait keeps every slot's identity. */
  lemma WakingKeepsTable(t: P.Table, t': P.Table, births: F.Births, reaps: nat)
    requires R.Inv(t, births, reaps) && t'.current == t.current && t'.live == t.live
    requires forall i: nat | i < P.SLOTS ::
               t'.entries[i] == t.entries[i]
               || (t.entries[i].state == P.Blocked && exists r :: t'.entries[i] == P.Woken(t.entries[i], P.Ready, r))
    ensures R.Inv(t', births, reaps) && Calmer(t, t')
  {
    hide F.Forest;
    forall i: nat | i < P.SLOTS
      ensures R.SameSlot(t.entries[i], t'.entries[i]) && SlotCalmer(t.entries[i], t'.entries[i])
      ensures t'.entries[i].state == P.Running ==> t.entries[i].state == P.Running
    {
    }
    R.ShapeKeepsForest(t, t', births);
  }

  // --- endpoint changes ---

  ghost predicate NobodyWaits(t: P.Table, e: nat) {
    forall i: nat | i < P.SLOTS :: !Waits(t.entries[i], e)
  }

  function WithEndpoint(k: Kernel, i: nat, e: Endpoint): Kernel
    requires i < ENDPOINTS
  {
    RawKernel(k.table, k.endpoints[i := e], k.waitSequence)
  }

  /** An endpoint nobody waits on may become anything; one that stays open may change its queue as
      long as it is empty whenever somebody with a buffer waits. */
  lemma EndpointKeepsWakeup(k: Kernel, i: nat, e: Endpoint)
    requires NoLostWakeup(k) && i < ENDPOINTS
    requires NobodyWaits(k.table, i) || (e.active && !e.closed
               && forall j: nat | j < P.SLOTS && Receiver(k.table.entries[j], i) :: e.queue == [])
    ensures NoLostWakeup(WithEndpoint(k, i, e))
  {
    forall j: nat | j < P.SLOTS ensures WaitOk(WithEndpoint(k, i, e), j) {
      assert WaitOk(k, j);
    }
  }

  lemma EndpointKeepsFifo(k: Kernel, h: History, i: nat, e: Endpoint, l: Log)
    requires Fifo(k, h) && i < ENDPOINTS && LogOk(e, l)
    ensures Fifo(WithEndpoint(k, i, e), RawHistory(h.births, h.logs[i := l]))
  {
    forall j: nat | j < ENDPOINTS
      ensures LogOk(WithEndpoint(k, i, e).endpoints[j], h.logs[i := l][j])
    {
      assert LogOk(k.endpoints[j], h.logs[j]);
    }
  }

  lemma InactiveHasNoWaiters(k: Kernel, i: nat)
    requires NoLostWakeup(k) && i < ENDPOINTS && !k.endpoints[i].active
    ensures NobodyWaits(k.table, i)
  {
    forall j: nat | j < P.SLOTS ensures !Waits(k.table.entries[j], i) {
      assert WaitOk(k, j);
    }
  }

  lemma MakeKeeps(k: Kernel, h: History, reaps: nat, authorised: bool, minted: bool)
    requires Inv(k, h, reaps)
    ensures var op := MakeEndpoint(authorised, minted);
            var (k', r) := Step(k, op); Inv(k', Observe(h, op, r), reaps)
  {
    hide R.Inv;
    var i := FreeEndpoint(k, 1);
    if authorised && i < ENDPOINTS {
      InactiveHasNoWaiters(k, i);
      assert LogOk(k.endpoints[i], h.logs[i]);
      if minted {
        EndpointKeepsWakeup(k, i, Fresh());
        EndpointKeepsFifo(k, h, i, Fresh(), Log([], []));
      } else {
        EndpointKeepsWakeup(k, i, DestroyEndpoint(Fresh()).1);
        EndpointKeepsFifo(k, h, i, DestroyEndpoint(Fresh()).1, h.logs[i]);
        assert h.logs[i := h.logs[i]] == h.logs;
      }
    }
  }

  lemma WakeAllKeeps(k: Kernel, births: F.Births, reaps: nat, i: nat)
    requires R.Inv(k.table, births, reaps) && NoLostWakeup(k)
    ensures var t' := WakeAll(k.table, i, P.E_CANCELED);
            && R.Inv(t', births, reaps) && NobodyWaits(t', i)
            && NoLostWakeup(RawKernel(t', k.endpoints, k.waitSequence))
  {
    var t' := WakeAll(k.table, i, P.E_CANCELED);
    WakingKeepsTable(k.table, t', births, reaps);
    CalmerKeepsWakeup(k, t');
  }

  lemma ShutKeeps(k: Kernel, h: History, reaps: nat, op: Op)
    requires Inv(k, h, reaps) && (op.Destroy? || op.Close?)
    ensures var (k', r) := Step(k, op); Inv(k', Observe(h, op, r), reaps)
  {
    hide R.Inv, NoLostWakeup;
    if Live(k, op.obj) && (op.Close? || op.obj.value != 0) {
      var i := op.obj.value;
      assert LogOk(k.endpoints[i], h.logs[i]);
      WakeAllKeeps(k, h.births, reaps, i);
      var woken: Kernel := RawKernel(WakeAll(k.table, i, P.E_CANCELED), k.endpoints, k.waitSequence);
      assert Fifo(woken, h);
      var e := if op.Close? then CloseEndpoint(k.endpoints[i]).1 else DestroyEndpoint(k.endpoints[i]).1;
      EndpointKeepsWakeup(woken, i, e);
      EndpointKeepsFifo(woken, h, i, e, h.logs[i]);
      assert h.logs[i := h.logs[i]] == h.logs;
    }
  }

  // --- sending ---

  lemma QueuedFromStart(k: Kernel, i: nat)
    requires NoLostWakeup(k)
    ensures Queued(k.table, i, 0)
  {
    forall j: nat | j < P.SLOTS && Receiver(k.table.entries[j], i)
      ensures k.table.entries[j].wait.sequence > 0
    {
      assert WaitOk(k, j);
    }
  }

  lemma DeliverKeeps(k: Kernel, births: F.Births, reaps: nat, i: nat, verdicts: Verdicts)
    requires R.Inv(k.table, births, reaps) && NoLostWakeup(k)
    ensures
      var (t', taker) := Deliver(k.table, i, verdicts, 0);
      && Delivered(k.table, t', i, verdicts, taker)
      && R.Inv(t', births, reaps) && NoLostWakeup(RawKernel(t', k.endpoints, k.waitSequence))
      && (taker == None ==> forall j: nat | j < P.SLOTS :: !Receiver(t'.entries[j], i))
  {
    var (t', taker) := Deliver(k.table, i, verdicts, 0);
    QueuedFromStart(k, i);
    DeliverExact(k.table, i, verdicts, 0);
    forall j: nat | j < P.SLOTS
      ensures t'.entries[j] == k.table.entries[j]
              || (k.table.entries[j].state == P.Blocked
                  && exists r :: t'.entries[j] == P.Woken(k.table.entries[j], P.Ready, r))
      ensures taker == None ==> !Receiver(t'.entries[j], i)
    {
      assert SlotDelivered(k.table, t', i, verdicts, taker, j);
    }
    WakingKeepsTable(k.table, t', births, reaps);
    CalmerKeepsWakeup(k, t');
  }

  lemma BodiesAppend(ms: seq<Message>, m: Message)
    ensures Bodies(ms + [m]) == Bodies(ms) + [BodyOf(m)]
  {
  }

  lemma SendLogs(e: Endpoint, l: Log, opcode: u32, word: u64)
    requires LogOk(e, l) && Send(e, Message(opcode, word, word)).0 == Ok
    ensures LogOk(Send(e, Message(opcode, word, word)).1, Log(l.sent + [Body(opcode, word)], l.received))
  {
    BodiesAppend(e.queue, Numbered(e, Message(opcode, word, word)).0);
    assert l.received <= l.sent + [Body(opcode, word)];
  }

  lemma CallKeeps(k: Kernel, h: History, reaps: nat, obj: Option<nat>, opcode: u32, word: u64, verdicts: Verdicts)
    requires Inv(k, h, reaps)
    ensures var op := Call(obj, opcode, word, verdicts);
            var (k', r) := Step(k, op); Inv(k', Observe(h, op, r), reaps)
  {
    hide R.Inv, TurnsDiffer;
    if Live(k, obj) {
      var i := obj.value;
      DeliverKeeps(k, h.births, reaps, i, verdicts);
      var (t', taker) := Deliver(k.table, i, verdicts, 0);
      var woken: Kernel := RawKernel(t', k.endpoints, k.waitSequence);
      assert Fifo(woken, h);
      var l, b := h.logs[i], Body(opcode, word);
      assert LogOk(k.endpoints[i], l);
      if taker.Some? {
        assert WaitOk(k, taker.value);
        EndpointKeepsFifo(woken, h, i, k.endpoints[i], Log(l.sent + [b], l.received + [b]));
        assert k.endpoints[i := k.endpoints[i]] == k.endpoints;
      } else {
        var (st, e) := Send(k.endpoints[i], Message(opcode, word, word));
        if st == Ok {
          SendLogs(k.endpoints[i], l, opcode, word);
          EndpointKeepsFifo(woken, h, i, e, Log(l.sent + [b], l.received));
          EndpointKeepsWakeup(woken, i, e);
        } else {
          assert k.endpoints[i := e] == k.endpoints;
        }
      }
    }
  }

  // --- receiving ---

  lemma ReceiveLogs(e: Endpoint, l: Log)
    requires LogOk(e, l) && e.active
    ensures LogOk(IpcModel.Receive(e).1, Took(l, IpcModel.Receive(e).2))
  {
    if e.queue != [] {
      assert e.queue == [e.queue[0]] + e.queue[1..];
      assert Bodies(e.queue) == [BodyOf(e.queue[0])] + Bodies(e.queue[1..]);
    }
  }

  lemma TakeKeeps(k: Kernel, h: History, i: nat)
    requires NoLostWakeup(k) && Fifo(k, h) && i < ENDPOINTS && k.endpoints[i].active
    ensures
      var (st, e, m) := IpcModel.Receive(k.endpoints[i]);
      var k' := WithEndpoint(k, i, e);
      NoLostWakeup(k') && Fifo(k', RawHistory(h.births, h.logs[i := Took(h.logs[i], m)]))
  {
    var (st, e, m) := IpcModel.Receive(k.endpoints[i]);
    assert LogOk(k.endpoints[i], h.logs[i]);
    ReceiveLogs(k.endpoints[i], h.logs[i]);
    EndpointKeepsFifo(k, h, i, e, Took(h.logs[i], m));
    forall j: nat | j < P.SLOTS ensures Waits(k.table.entries[j], i) ==> WaitOk(k, j) { }
    EndpointKeepsWakeup(k, i, e);
  }

  lemma ReceiveKeeps(k: Kernel, h: History, reaps: nat, obj: Option<nat>, writable: bool)
    requires Inv(k, h, reaps)
    ensures var op := Receive(obj, writable);
            var (k', r) := Step(k, op); Inv(k', Observe(h, op, r), reaps)
  {
    hide R.Inv, NoLostWakeup, Fifo;
    if Live(k, obj) && writable {
      TakeKeeps(k, h, obj.value);
    } else if obj.Some? && obj.value < ENDPOINTS {
      assert h.logs[obj.value := h.logs[obj.value]] == h.logs;
    }
  }

  /** The running process goes to sleep on an open empty endpoint, last in line. */
  lemma SleepKeeps(k: Kernel, births: F.Births, reaps: nat, i: nat, buffer: u64)
    requires R.Inv(k.table, births, reaps) && NoLostWakeup(k)
    requires k.table.current < P.SLOTS && k.table.entries[k.table.current].state == P.Running
    requires i < ENDPOINTS && k.endpoints[i].active && !k.endpoints[i].closed && k.endpoints[i].queue == []
    ensures
      var k' := IpcReceiveWait(k, Some(i), true, buffer).0;
      R.Inv(k'.table, births, reaps) && NoLostWakeup(k') && k'.endpoints == k.endpoints
  {
    hide F.Forest;
    var k' := IpcReceiveWait(k, Some(i), true, buffer).0;
    forall j: nat | j < P.SLOTS ensures R.SameSlot(k.table.entries[j], k'.table.entries[j]) { }
    R.ShapeKeepsForest(k.table, k'.table, births);
    forall j: nat | j < P.SLOTS ensures WaitOk(k', j) {
      assert WaitOk(k, j);
    }
    forall a: nat, b: nat | a < b < P.SLOTS && k'.table.entries[a].state == P.Blocked
        && k'.table.entries[b].state == P.Blocked
      ensures k'.table.entries[a].wait.sequence != k'.table.entries[b].wait.sequence
    {
      assert WaitOk(k, a) && WaitOk(k, b);
    }
  }

  lemma ReceiveWaitKeeps(k: Kernel, h: History, reaps: nat, obj: Option<nat>, writable: bool, buffer: u64)
    requires Inv(k, h, reaps)
    ensures var op := ReceiveWait(obj, writable, buffer);
            var (k', r) := Step(k, op); Inv(k', Observe(h, op, r), reaps)
  {
    hide R.Inv, NoLostWakeup;
    var t := k.table;
    if t.current < P.SLOTS && t.entries[t.current].state == P.Running && Live(k, obj) && writable {
      if IpcModel.Receive(k.endpoints[obj.value]).0 == Timeout {
        SleepKeeps(k, h.births, reaps, obj.value, buffer);
        assert h.logs[obj.value := h.logs[obj.value]] == h.logs;
      } else {
        TakeKeeps(k, h, obj.value);
      }
    } else if obj.Some? && obj.value < ENDPOINTS {
      assert h.logs[obj.value := h.logs[obj.value]] == h.logs;
    }
  }

  // --- runs ---

  predicate IsReap(op: Op) { op.Process? && op.op.Reap? }

  lemma StepKeeps(k: Kernel, h: History, reaps: nat, op: Op)
    requires Inv(k, h, reaps) && reaps + 2 < U32
    ensures var (k', r) := Step(k, op); Inv(k', Observe(h, op, r), if IsReap(op) then reaps + 1 else reaps)
  {
    hide NoLostWakeup, Fifo, R.Inv;
    match op
    case Process(p) =>
      R.StepKeeps(k.table, p, h.births, reaps);
      ProcessStepsCalm(k.table, p);
      CalmerKeepsWakeup(k, R.Step(k.table, p).0);
      ProcessKeepsFifo(k, h, p);
    case MakeEndpoint(authorised, minted) => MakeKeeps(k, h, reaps, authorised, minted);
    case Destroy(_) => ShutKeeps(k, h, reaps, op);
    case Close(_) => ShutKeeps(k, h, reaps, op);
    case Call(obj, opcode, word, verdicts) => CallKeeps(k, h, reaps, obj, opcode, word, verdicts);
    case Receive(obj, writable) => ReceiveKeeps(k, h, reaps, obj, writable);
    case ReceiveWait(obj, writable, buffer) => ReceiveWaitKeeps(k, h, reaps, obj, writable, buffer);
  }

  lemma ProcessKeepsFifo(k: Kernel, h: History, p: R.Op)
    requires Fifo(k, h)
    ensures var (k', r) := Step(k, Process(p)); Fifo(k', Observe(h, Process(p), r))
  {
    hide R.Step;
  }

  function Run(k: Kernel, h: History, ops: seq<Op>): (Kernel, History)
    decreases |ops|
  {
    if ops == [] then (k, h)
    else
      var (k', r) := Step(k, ops[0]);
      Run(k', Observe(h, ops[0], r), ops[1..])
  }

  function Reaps(ops: seq<Op>): nat
    decreases |ops|
  {
    if ops == [] then 0 else (if IsReap(ops[0]) then 1 else 0) + Reaps(ops[1..])
  }

  /** Boot: no processes, endpoint 0 open, the rest of the pool unused. */
  function Boot(): (Kernel, History) {
    (RawKernel(P.InitTable(), seq(ENDPOINTS, i => if i == 0 then Fresh() else Endpoint([], 0, false, false)), 0),
     RawHistory(map[], seq(ENDPOINTS, _ => Log([], []))))
  }

  function Reach(ops: seq<Op>): (Kernel, History) {
    var (k, h) := Boot();
    Run(k, h, ops)
  }

  lemma {:induction false} RunKeeps(k: Kernel, h: History, reaps: nat, ops: seq<Op>)
    requires Inv(k, h, reaps) && reaps + Reaps(ops) + 2 < U32
    ensures var (k', h') := Run(k, h, ops); Inv(k', h', reaps + Reaps(ops))
    decreases |ops|
  {
    hide Inv, Step, Observe;
    if ops != [] {
      StepKeeps(k, h, reaps, ops[0]);
      var (k', r) := Step(k, ops[0]);
      RunKeeps(k', Observe(h, ops[0], r), if IsReap(ops[0]) then reaps + 1 else reaps, ops[1..]);
    }
  }

  lemma BootKeeps()
    ensures var (k, h) := Boot(); Inv(k, h, 0)
  {
    var (k, h) := Boot();
    assert R.UsedSlots(k.table) == {};
    forall i: nat | i < P.SLOTS ensures F.SlotOk(k.table, h.births, i) && WaitOk(k, i) { }
    forall i: nat | i < ENDPOINTS ensures LogOk(k.endpoints[i], h.logs[i]) { }
  }

  lemma ReachKeeps(ops: seq<Op>)
    requires Reaps(ops) + 2 < U32
    ensures var (k, h) := Reach(ops); Inv(k, h, Reaps(ops))
  {
    hide Inv;
    BootKeeps();
    var (k, h) := Boot();
    RunKeeps(k, h, 0, ops);
  }

  /** Per endpoint lifetime, what receivers got, by direct hand-off or by dequeuing, is a prefix of
      what senders had accepted, in order; the rest is exactly what still queues. */
  lemma MessagesInOrder(ops: seq<Op>, i: nat)
    requires Reaps(ops) + 2 < U32 && i < ENDPOINTS
    ensures
      var (k, h) := Reach(ops);
      && h.logs[i].received <= h.logs[i].sent
      && (k.endpoints[i].active ==> h.logs[i].sent == h.logs[i].received + Bodies(k.endpoints[i].queue))
  {
    ReachKeeps(ops);
    var (k, h) := Reach(ops);
    assert LogOk(k.endpoints[i], h.logs[i]);
  }

  /** No lost wakeup: whoever is blocked waits on an active, open endpoint, which is empty unless
      the waiter gave a null buffer. */
  lemma NobodySleepsThroughNews(ops: seq<Op>, i: nat)
    requires Reaps(ops) + 2 < U32 && i < P.SLOTS
    requires Reach(ops).0.table.entries[i].state == P.Blocked
    ensures
      var k := Reach(ops).0;
      var w := k.table.entries[i].wait;
      && w.endpoint < ENDPOINTS && k.endpoints[w.endpoint].active && !k.endpoints[w.endpoint].closed
      && (w.buffer != 0 ==> k.endpoints[w.endpoint].queue == [])
  {
    ReachKeeps(ops);
    assert WaitOk(Reach(ops).0, i);
  }

  lemma SleepersAfterQueuedSend(k: Kernel, births: F.Births, reaps: nat, i: nat, verdicts: Verdicts, j: nat)
    requires R.Inv(k.table, births, reaps) && NoLostWakeup(k) && j < P.SLOTS
    requires Deliver(k.table, i, verdicts, 0).1 == None
    ensures
      var t' := Deliver(k.table, i, verdicts, 0).0;
      Waits(t'.entries[j], i) <==> Waits(k.table.entries[j], i) && k.table.entries[j].wait.buffer == 0
  {
    hide R.Inv, NoLostWakeup;
    DeliverKeeps(k, births, reaps, i, verdicts);
    assert SlotDelivered(k.table, Deliver(k.table, i, verdicts, 0).0, i, verdicts, None, j);
  }

  /** The exact exception: a send that queues its message leaves somebody asleep on the endpoint
      if and only if somebody had gone to sleep there with a null buffer. */
  lemma QueuedSendStrandsOnlyNullBuffers(ops: seq<Op>, i: nat, opcode: u32, word: u64, verdicts: Verdicts)
    requires Reaps(ops) + 2 < U32 && i < ENDPOINTS
    requires var r := Step(Reach(ops).0, Call(Some(i), opcode, word, verdicts)).1;
             r.answer.status == Ok && r.answer.taker == None
    ensures
      var k := Reach(ops).0;
      var k' := Step(k, Call(Some(i), opcode, word, verdicts)).0;
      && k'.endpoints[i].queue != []
      && (!NobodyWaits(k'.table, i) <==>
            exists j: nat :: j < P.SLOTS && Waits(k.table.entries[j], i) && k.table.entries[j].wait.buffer == 0)
  {
    hide R.Inv, NoLostWakeup, Fifo, Reach, Deliver;
    ReachKeeps(ops);
    var (k, h) := Reach(ops);
    forall j: nat | j < P.SLOTS
      ensures Waits(Deliver(k.table, i, verdicts, 0).0.entries[j], i) <==>
                Waits(k.table.entries[j], i) && k.table.entries[j].wait.buffer == 0
    {
      SleepersAfterQueuedSend(k, h.births, Reaps(ops), i, verdicts, j);
    }
  }

  /** A concrete run into the exception: a receive with a null buffer, then a send. */
  function NullBufferRun(verdicts: Verdicts): seq<Op> {
    [Process(R.Create(P.Spec(1, 1, 0, 0))), Process(R.Schedule), ReceiveWait(Some(0), true, 0),
     Call(Some(0), 7, 9, verdicts)]
  }

  lemma RunFour(k: Kernel, h: History, a: Op, b: Op, c: Op, d: Op)
    ensures Run(k, h, [a, b, c, d]).0 == Step(Step(Step(Step(k, a).0, b).0, c).0, d).0
  {
    hide Step, Observe;
    var (k1, r1) := Step(k, a);
    var h1 := Observe(h, a, r1);
    var (k2, r2) := Step(k1, b);
    var h2 := Observe(h1, b, r2);
    var (k3, r3) := Step(k2, c);
    var h3 := Observe(h2, c, r3);
    var (k4, r4) := Step(k3, d);
    var h4 := Observe(h3, d, r4);
    assert [a, b, c, d][1..] == [b, c, d] && [b, c, d][1..] == [c, d] && [c, d][1..] == [d] && [d][1..] == [];
    assert Run(k3, h3, [d]) == Run(k4, h4, []);
    assert Run(k2, h2, [c, d]) == Run(k3, h3, [d]);
    assert Run(k1, h1, [b, c, d]) == Run(k2, h2, [c, d]);
  }

  lemma OneSleeperStays(t: P.Table, verdicts: Verdicts)
    requires t.entries[0].state == P.Blocked && t.entries[0].wait.buffer == 0
    requires forall i: nat | 0 < i < P.SLOTS :: t.entries[i].state == P.Unused
    ensures Deliver(t, 0, verdicts, 0) == (t, None)
  {
    OldestIsLeast(t, 0, 0, 0, None);
  }

  /** The first three steps: slot zero runs and goes to sleep on endpoint zero with a null buffer. */
  lemma NullBufferSleeps()
    ensures
      var k2 := Step(Step(Boot().0, Process(R.Create(P.Spec(1, 1, 0, 0)))).0, Process(R.Schedule)).0;
      var k3 := Step(k2, ReceiveWait(Some(0), true, 0)).0;
      && k3.table.entries[0].state == P.Blocked && k3.table.entries[0].wait == P.Wait(0, 1, 0)
      && (forall i: nat | 0 < i < P.SLOTS :: k3.table.entries[i].state == P.Unused)
      && k3.endpoints == Boot().0.endpoints
  {
    var k0 := Boot().0;
    var k1 := Step(k0, Process(R.Create(P.Spec(1, 1, 0, 0)))).0;
    assert k1.table == P.RawTable(k0.table.entries[0 := P.Born(P.Spec(1, 1, 0, 0), 0, P.Blank(1))], P.NONE, 1);
    var k2 := Step(k1, Process(R.Schedule)).0;
    assert P.NextReady(k1.table, 0, 0) == Some(0);
    assert k2.table == P.RawTable(k1.table.entries[0 := P.SetState(k1.table.entries[0], P.Running)], 0, 1);
  }

  lemma NullBufferSleepsThroughNews(verdicts: Verdicts)
    ensures
      var k := Reach(NullBufferRun(verdicts)).0;
      && k.table.entries[0].state == P.Blocked && k.table.entries[0].wait.endpoint == 0
      && k.endpoints[0].queue != []
  {
    var (k0, h0) := Boot();
    NullBufferSleeps();
    RunFour(k0, h0, Process(R.Create(P.Spec(1, 1, 0, 0))), Process(R.Schedule), ReceiveWait(Some(0), true, 0),
            Call(Some(0), 7, 9, verdicts));
    var k2 := Step(Step(k0, Process(R.Create(P.Spec(1, 1, 0, 0)))).0, Process(R.Schedule)).0;
    var k3 := Step(k2, ReceiveWait(Some(0), true, 0)).0;
    hide Run, Step, Deliver;
    OneSleeperStays(k3.table, verdicts);
    SendIsQueued(k3, 7, 9, verdicts);
  }

  lemma SendIsQueued(k: Kernel, opcode: u32, word: u64, verdicts: Verdicts)
    requires k.endpoints == Boot().0.endpoints && Deliver(k.table, 0, verdicts, 0) == (k.table, None)
    ensures var k' := Step(k, Call(Some(0), opcode, word, verdicts)).0;
            k'.table == k.table && k'.endpoints[0].queue != []
  {
    hide Deliver;
  }

  /** A send finds the oldest receiver whose handle and buffer still hold; older ones are woken
      with their error, younger ones sleep on, and nobody else is touched. */
  lemma SendServesTheOldest(ops: seq<Op>, i: nat, opcode: u32, word: u64, verdicts: Verdicts)
    requires Reaps(ops) + 2 < U32 && i < ENDPOINTS && Reach(ops).0.endpoints[i].active
    ensures
      var k := Reach(ops).0;
      var (k', r) := Step(k, Call(Some(i), opcode, word, verdicts));
      && Delivered(k.table, k'.table, i, verdicts, r.answer.taker)
      && (r.answer.taker == None ==> forall j: nat | j < P.SLOTS :: !Receiver(k'.table.entries[j], i))
  {
    hide R.Inv, NoLostWakeup, Fifo, Reach, Delivered;
    ReachKeeps(ops);
    var (k, h) := Reach(ops);
    DeliverKeeps(k, h.births, Reaps(ops), i, verdicts);
  }

  /** At most the current slot runs, the live count is the number of slots in use, and each of those
      is found under the id it carries. */
  lemma TableSound(ops: seq<Op>)
    requires Reaps(ops) + 2 < U32
    ensures
      var t := Reach(ops).0.table;
      && (forall i: nat | i < P.SLOTS && t.entries[i].state == P.Running :: i == t.current)
      && t.live == |R.UsedSlots(t)|
      && (forall i: nat | i < P.SLOTS && t.entries[i].state != P.Unused :: P.Find(t, t.entries[i].id) == Some(i))
  {
    ReachKeeps(ops);
    var (k, h) := Reach(ops);
    forall i: nat | i < P.SLOTS && k.table.entries[i].state != P.Unused
      ensures P.Find(k.table, k.table.entries[i].id) == Some(i)
    {
      F.UsedIsFound(k.table, h.births, i);
    }
  }

  /** The bounded walk is the ancestor relation, which no process bears to itself. */
  lemma AncestryDecided(ops: seq<Op>, root: u64, id: u64)
    requires Reaps(ops) + 2 < U32 && root != 0
    ensures
      var t := Reach(ops).0.table;
      && (P.DescendantOf(t, root, id, P.SLOTS) <==> F.Ancestor(t, root, id))
      && !F.Ancestor(t, root, root)
  {
    ReachKeeps(ops);
    var (k, h) := Reach(ops);
    F.WalkIsAncestry(k.table, h.births, root, id);
    F.AncestryAcyclic(k.table, h.births, root);
  }

  /** Terminating a tree ends exactly the live group members descending from `parent`, never
      `parent` itself, and returns their number. */
  lemma TerminateTreeExact(ops: seq<Op>, parent: u64, group: u64, code: int)
    requires Reaps(ops) + 2 < U32 && parent != 0 && P.Find(Reach(ops).0.table, parent).Some?
    ensures
      var t := Reach(ops).0.table;
      var (st, t', count) := P.Terminate(t, parent, group, code, true);
      var doomed := P.DoomedSlots(t, parent, group, true);
      && count == |doomed| && P.Find(t, parent).value !in doomed
      && forall i: nat | i < P.SLOTS ::
           var p := t.entries[i];
           && (i in doomed <==> p.state != P.Unused && p.state != P.Zombie && p.group == group
                                && F.Ancestor(t, parent, p.id))
           && t'.entries[i] == if i in doomed then P.Ended(p, code) else p
  {
    hide Inv, Reach, F.Forest, P.DescendantOf;
    ReachKeeps(ops);
    var (k, h) := Reach(ops);
    InvForest(k, h, Reaps(ops));
    var t := k.table;
    forall i: nat | i < P.SLOTS
      ensures P.DescendantOf(t, parent, t.entries[i].id, P.SLOTS) <==> F.Ancestor(t, parent, t.entries[i].id)
    {
      F.WalkIsAncestry(t, h.births, parent, t.entries[i].id);
    }
    F.AncestryAcyclic(t, h.births, parent);
    F.FindNames(t, parent);
  }

  lemma InvForest(k: Kernel, h: History, reaps: nat)
    requires Inv(k, h, reaps)
    ensures F.Forest(k.table, h.births)
  {
  }

  // --- reaped for good ---

  lemma {:induction false} RunSplits(k: Kernel, h: History, before: seq<Op>, after: seq<Op>)
    ensures var (k1, h1) := Run(k, h, before); Run(k, h, before + after) == Run(k1, h1, after)
    ensures Reaps(before + after) == Reaps(before) + Reaps(after)
    decreases |before|
  {
    hide Step, Observe;
    if before == [] {
      assert before + after == after;
    } else {
      assert (before + after)[1..] == before[1..] + after;
      var (k1, r) := Step(k, before[0]);
      RunSplits(k1, Observe(h, before[0], r), before[1..], after);
    }
  }

  /** Ids once issued stay on record, and an issued id that no longer resolves never will again. */
  lemma {:induction false} GoneStaysGone(k: Kernel, h: History, reaps: nat, ops: seq<Op>, id: u64)
    requires Inv(k, h, reaps) && reaps + Reaps(ops) + 2 < U32
    requires id in h.births && P.Find(k.table, id) == None
    ensures var (k', h') := Run(k, h, ops); id in h'.births && P.Find(k'.table, id) == None
    decreases |ops|
  {
    hide Inv, P.Find;
    if ops != [] {
      StepKeeps(k, h, reaps, ops[0]);
      var (k', r) := Step(k, ops[0]);
      StepKeepsGone(k, h, reaps, ops[0], id);
      GoneStaysGone(k', Observe(h, ops[0], r), if IsReap(ops[0]) then reaps + 1 else reaps, ops[1..], id);
    }
  }

  lemma StepGenerationsRise(k: Kernel, h: History, reaps: nat, op: Op, i: nat)
    requires Inv(k, h, reaps) && reaps + 2 < U32 && i < P.SLOTS
    ensures k.table.entries[i].generation <= Step(k, op).0.table.entries[i].generation
  {
    hide R.Inv, F.Forest, NoLostWakeup, Fifo, R.Step;
    match op
    case Process(p) => R.GenerationsRise(k.table, p, h.births, reaps, i);
    case Call(obj, opcode, word, verdicts) =>
      if Live(k, obj) {
        DeliverKeeps(k, h.births, reaps, obj.value, verdicts);
        var (t', taker) := Deliver(k.table, obj.value, verdicts, 0);
        assert SlotDelivered(k.table, t', obj.value, verdicts, taker, i);
      }
    case _ =>
  }

  lemma StepKeepsGone(k: Kernel, h: History, reaps: nat, op: Op, id: u64)
    requires Inv(k, h, reaps) && reaps + 2 < U32
    requires id in h.births && P.Find(k.table, id) == None
    ensures var (k', r) := Step(k, op); id in Observe(h, op, r).births && P.Find(k'.table, id) == None
  {
    hide Step, F.Forest, P.Find, NoLostWakeup, Fifo, P.IdSlot, P.IdGeneration;
    StepKeeps(k, h, reaps, op);
    var (k', r) := Step(k, op);
    R.ResolvesIffCurrent(k.table, h.births, id);
    R.ResolvesIffCurrent(k'.table, Observe(h, op, r).births, id);
    StepGenerationsRise(k, h, reaps, op, P.IdSlot(id));
  }

  /** An id that was issued and has been reaped never resolves again, whatever happens to its slot. */
  lemma ReapedForever(before: seq<Op>, after: seq<Op>, id: u64)
    requires Reaps(before + after) + 2 < U32
    requires var (k, h) := Reach(before); id in h.births && P.Find(k.table, id) == None
    ensures P.Find(Reach(before + after).0.table, id) == None
  {
    hide Inv;
    var (k0, h0) := Boot();
    RunSplits(k0, h0, before, after);
    ReachKeeps(before);
    var (k, h) := Reach(before);
    GoneStaysGone(k, h, Reaps(before), after, id);
  }

  // --- fairness of the round robin ---

  predicate IsSchedule(op: Op) { op.Process? && op.op.Schedule? }

  function Schedules(ops: seq<Op>): nat
    decreases |ops|
  {
    if ops == [] then 0 else (if IsSchedule(ops[0]) then 1 else 0) + Schedules(ops[1..])
  }

  /** Slot `i` is ready throughout the run. */
  predicate StaysReady(k: Kernel, ops: seq<Op>, i: nat)
    requires i < P.SLOTS
    decreases |ops|
  {
    && k.table.entries[i].state == P.Ready
    && (ops != [] ==> StaysReady(Step(k, ops[0]).0, ops[1..], i))
  }

  /** How often something other than scheduling moves the current slot, as its end or its wait does. */
  function Drops(k: Kernel, ops: seq<Op>): nat
    decreases |ops|
  {
    if ops == [] then 0
    else
      var k' := Step(k, ops[0]).0;
      (if !IsSchedule(ops[0]) && k'.table.current != k.table.current then 1 else 0) + Drops(k', ops[1..])
  }

  lemma {:induction false} NextReadyIsNearest(t: P.Table, start: nat, offset: nat, i: nat)
    requires start < P.SLOTS && offset <= P.SLOTS && i < P.SLOTS
    requires t.entries[i].state == P.Ready && P.Ahead(start, i) >= offset
    ensures P.NextReady(t, start, offset).Some?
    ensures P.Ahead(start, P.NextReady(t, start, offset).value) <= P.Ahead(start, i)
    decreases P.SLOTS - offset
  {
    assert offset < P.SLOTS;
    var at := (start + offset) % P.SLOTS;
    assert P.Ahead(start, at) == offset;
    assert (start + P.Ahead(start, i)) % P.SLOTS == i;
    if t.entries[at].state != P.Ready {
      NextReadyIsNearest(t, start, offset + 1, i);
    }
  }

  lemma NextStartIsCloser(start: nat, j: nat, i: nat)
    requires start < P.SLOTS && j < P.SLOTS && i < P.SLOTS && i != j
    requires P.Ahead(start, j) <= P.Ahead(start, i)
    ensures P.Ahead((j + 1) % P.SLOTS, i) < P.Ahead(start, i)
  {
  }

  /** Scheduling past a ready slot brings its turn strictly closer. */
  lemma ScheduleComesCloser(t: P.Table, i: nat)
    requires i < P.SLOTS && t.entries[i].state == P.Ready
    requires R.Step(t, R.Schedule).0.entries[i].state == P.Ready
    ensures P.Ahead(P.ScanStart(R.Step(t, R.Schedule).0), i) < P.Ahead(P.ScanStart(t), i)
  {
    hide P.NextReady, P.Ahead;
    NextReadyIsNearest(t, P.ScanStart(t), 0, i) by { assert P.Ahead(P.ScanStart(t), i) >= 0; }
    var j := P.NextReady(t, P.ScanStart(t), 0).value;
    NextStartIsCloser(P.ScanStart(t), j, i);
  }

  /** A process that stays ready is passed over at most as often as its distance from the scan start
      says, and once around the table more each time the current slot is dropped. */
  lemma {:induction false} TurnComesAfterDrops(k: Kernel, ops: seq<Op>, i: nat)
    requires i < P.SLOTS && StaysReady(k, ops, i)
    ensures Schedules(ops) <= P.Ahead(P.ScanStart(k.table), i) + P.SLOTS * Drops(k, ops)
    decreases |ops|
  {
    hide P.NextReady, Step;
    if ops != [] {
      var k' := Step(k, ops[0]).0;
      if IsSchedule(ops[0]) {
        ScheduleStep(k, ops[0]);
        ScheduleComesCloser(k.table, i);
      }
      TurnComesAfterDrops(k', ops[1..], i);
    }
  }

  lemma ScheduleStep(k: Kernel, op: Op)
    requires IsSchedule(op)
    ensures Step(k, op).0.table == R.Step(k.table, R.Schedule).0
  {
  }

  /** As long as nothing but scheduling moves the current slot, a process that stays ready is chosen
      within 32 schedule calls. */
  lemma TurnComes(k: Kernel, ops: seq<Op>, i: nat)
    requires i < P.SLOTS && StaysReady(k, ops, i) && Drops(k, ops) == 0
    ensures Schedules(ops) <= P.Ahead(P.ScanStart(k.table), i) < P.SLOTS
  {
    TurnComesAfterDrops(k, ops, i);
  }
}
