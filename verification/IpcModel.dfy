/** Endpoints and the IPC system calls as values: a message goes straight to the oldest blocked
    receiver that can take it, and into the endpoint's bounded queue otherwise. */
module IpcModel {
  import opened Words
  import P = ProcessModel

  const CAPACITY: nat := 16
  const ENDPOINTS: nat := 4

  /** What the call path fills in; `sequence` is renumbered only when the message is queued. */
  datatype Message = Message(opcode: u32, sequence: u64, word: u64)

  /** A message without its sequence number. */
  datatype Body = Body(opcode: u32, word: u64)

  function BodyOf(m: Message): Body { Body(m.opcode, m.word) }

  function Bodies(ms: seq<Message>): seq<Body> { seq(|ms|, i requires 0 <= i < |ms| => BodyOf(ms[i])) }

  datatype Endpoint = Endpoint(queue: seq<Message>, nextSequence: u64, closed: bool, active: bool)

  datatype Status = Ok | Inval | Denied | NoMemory | Timeout | Closed | Busy

  // --- one endpoint ---

  function Fresh(): Endpoint { Endpoint([], 1, false, true) }

  function CloseEndpoint(e: Endpoint): (Status, Endpoint) {
    if !e.active then (Inval, e) else (Ok, Endpoint(e.queue, e.nextSequence, true, true))
  }

  function DestroyEndpoint(e: Endpoint): (Status, Endpoint) {
    if !e.active then (Inval, e) else (Ok, Endpoint([], e.nextSequence, true, false))
  }

  /** The message as queued, and the endpoint's next sequence number after it. */
  function Numbered(e: Endpoint, m: Message): (Message, u64) {
    var stamped := if m.sequence == 0 then Message(m.opcode, e.nextSequence, m.word) else m;
    var after := (stamped.sequence + 1) % U64;
    (stamped, if stamped.sequence < e.nextSequence then e.nextSequence else if after == 0 then 1 else after)
  }

  function Send(e: Endpoint, m: Message): (Status, Endpoint) {
    if !e.active then (Inval, e)
    else if e.closed then (Closed, e)
    else if |e.queue| >= CAPACITY then (Busy, e)
    else
      var (stamped, next) := Numbered(e, m);
      (Ok, Endpoint(e.queue + [stamped], next, e.closed, e.active))
  }

  function Receive(e: Endpoint): (Status, Endpoint, Option<Message>) {
    if !e.active then (Inval, e, None)
    else if e.queue == [] then (if e.closed then Closed else Timeout, e, None)
    else (Ok, Endpoint(e.queue[1..], e.nextSequence, e.closed, e.active), Some(e.queue[0]))
  }

  // --- waiters ---

  predicate Waits(p: P.Process, e: nat) { p.state == P.Blocked && p.wait.endpoint == e }

  predicate Candidate(p: P.Process, e: nat, skipped: nat) {
    Waits(p, e) && p.wait.buffer != 0 && p.wait.sequence > skipped
  }

  /** The best candidate among slots i and above, given the best below. */
  function Oldest(t: P.Table, e: nat, skipped: nat, i: nat, best: Option<nat>): (r: Option<nat>)
    requires i <= P.SLOTS
    requires best.Some? ==> best.value < P.SLOTS && Candidate(t.entries[best.value], e, skipped)
    ensures r.Some? ==> r.value < P.SLOTS && Candidate(t.entries[r.value], e, skipped)
    decreases P.SLOTS - i
  {
    if i == P.SLOTS then best
    else if Candidate(t.entries[i], e, skipped)
            && (best.None? || t.entries[i].wait.sequence < t.entries[best.value].wait.sequence)
    then Oldest(t, e, skipped, i + 1, Some(i))
    else Oldest(t, e, skipped, i + 1, best)
  }

  /** What a send finds at a waiter: its handle was revoked, its buffer cannot be written, or the
      message is copied. */
  datatype Verdict = Revoked | Unwritable | Copied

  function VerdictResult(v: Verdict): int {
    match v case Revoked => -13 case Unwritable => -14 case Copied => 0
  }

  function WakeSlot(t: P.Table, i: nat, result: int): P.Table
    requires i < P.SLOTS
  {
    P.RawTable(t.entries[i := P.Woken(t.entries[i], P.Ready, result)], t.current, t.live)
  }

  function BlockedSlots(t: P.Table): set<nat> {
    set i: nat | i < P.SLOTS && t.entries[i].state == P.Blocked
  }

  lemma WakingUnblocks(t: P.Table, i: nat, result: int)
    requires i < P.SLOTS && t.entries[i].state == P.Blocked
    ensures BlockedSlots(WakeSlot(t, i, result)) == BlockedSlots(t) - {i}
    ensures |BlockedSlots(WakeSlot(t, i, result))| < |BlockedSlots(t)|
  {
    assert BlockedSlots(WakeSlot(t, i, result)) == BlockedSlots(t) - {i};
  }

  /** The delivery loop: wake waiters oldest first until one takes the message. */
  function Deliver(t: P.Table, e: nat, verdicts: seq<Verdict>, skipped: nat): (P.Table, Option<nat>)
    requires |verdicts| == P.SLOTS
    decreases |BlockedSlots(t)|
  {
    match Oldest(t, e, skipped, 0, None)
    case None => (t, None)
    case Some(i) =>
      var t' := WakeSlot(t, i, VerdictResult(verdicts[i]));
      if verdicts[i] == Copied then (t', Some(i))
      else
        WakingUnblocks(t, i, VerdictResult(verdicts[i]));
        Deliver(t', e, verdicts, t.entries[i].wait.sequence)
  }

  function WakeAll(t: P.Table, e: nat, result: int): P.Table {
    P.RawTable(seq(P.SLOTS, i requires 0 <= i < P.SLOTS =>
                 if Waits(t.entries[i], e) then P.Woken(t.entries[i], P.Ready, result) else t.entries[i]),
               t.current, t.live)
  }

  // --- the system calls ---

  datatype RawKernel = RawKernel(table: P.Table, endpoints: seq<Endpoint>, waitSequence: nat)

  type Kernel = k: RawKernel | |k.endpoints| == ENDPOINTS
    witness RawKernel(P.InitTable(), seq(ENDPOINTS, _ => Endpoint([], 1, false, false)), 0)

  /** An object named by a valid handle, when it is an active endpoint. */
  predicate Live(k: Kernel, obj: Option<nat>) {
    obj.Some? && obj.value < ENDPOINTS && k.endpoints[obj.value].active
  }

  /** Outcome of a call: the receiver a send woke, the message a receive returned, a new endpoint. */
  datatype Answer = Answer(status: Status, taker: Option<nat>, message: Option<Message>, made: Option<nat>)

  function Said(status: Status): Answer { Answer(status, None, None, None) }

  function FreeEndpoint(k: Kernel, i: nat): (s: nat)
    requires i <= ENDPOINTS
    ensures i <= s <= ENDPOINTS && (s < ENDPOINTS ==> !k.endpoints[s].active)
    decreases ENDPOINTS - i
  {
    if i == ENDPOINTS || !k.endpoints[i].active then i else FreeEndpoint(k, i + 1)
  }

  /** `minted`: did the caller get a handle for the new endpoint?  Slot 0 is never recreated. */
  function IpcCreate(k: Kernel, authorised: bool, minted: bool): (Kernel, Answer) {
    var i := FreeEndpoint(k, 1);
    if !authorised || i == ENDPOINTS then (k, Said(NoMemory))
    else if minted then
      (RawKernel(k.table, k.endpoints[i := Fresh()], k.waitSequence), Answer(Ok, None, None, Some(i)))
    else (RawKernel(k.table, k.endpoints[i := DestroyEndpoint(Fresh()).1], k.waitSequence), Said(NoMemory))
  }

  function IpcDestroy(k: Kernel, obj: Option<nat>): (Kernel, Answer) {
    if !Live(k, obj) || obj.value == 0 then (k, Said(Denied))
    else
      var i := obj.value;
      (RawKernel(WakeAll(k.table, i, P.E_CANCELED), k.endpoints[i := DestroyEndpoint(k.endpoints[i]).1],
                 k.waitSequence),
       Said(Ok))
  }

  function IpcClose(k: Kernel, obj: Option<nat>): (Kernel, Answer) {
    if !Live(k, obj) then (k, Said(Denied))
    else
      var i := obj.value;
      (RawKernel(WakeAll(k.table, i, P.E_CANCELED), k.endpoints[i := CloseEndpoint(k.endpoints[i]).1], k.waitSequence),
       Said(Ok))
  }

  function IpcCall(k: Kernel, obj: Option<nat>, opcode: u32, word: u64, verdicts: seq<Verdict>): (Kernel, Answer)
    requires |verdicts| == P.SLOTS
  {
    if !Live(k, obj) then (k, Said(Denied))
    else
      var i, m := obj.value, Message(opcode, word, word);
      var (t, taker) := Deliver(k.table, i, verdicts, 0);
      if taker.Some? then (RawKernel(t, k.endpoints, k.waitSequence), Answer(Ok, taker, None, None))
      else
        var (st, e) := Send(k.endpoints[i], m);
        (RawKernel(t, k.endpoints[i := e], k.waitSequence), Said(st))
  }

  /** `writable`: the caller's buffer passed the range check. */
  function IpcReceive(k: Kernel, obj: Option<nat>, writable: bool): (Kernel, Answer) {
    if !Live(k, obj) || !writable then (k, Said(Denied))
    else
      var (st, e, m) := Receive(k.endpoints[obj.value]);
      (RawKernel(k.table, k.endpoints[obj.value := e], k.waitSequence), Answer(st, None, m, None))
  }

  /** Receive, or block the running process on an open empty endpoint. */
  function IpcReceiveWait(k: Kernel, obj: Option<nat>, writable: bool, buffer: u64): (Kernel, Answer) {
    var t := k.table;
    if t.current >= P.SLOTS || t.entries[t.current].state != P.Running || !Live(k, obj) || !writable
    then (k, Said(Denied))
    else
      var (st, e, m) := Receive(k.endpoints[obj.value]);
      if st != Timeout then (RawKernel(t, k.endpoints[obj.value := e], k.waitSequence), Answer(st, None, m, None))
      else
        var p := t.entries[t.current];
        var wait := P.Wait(buffer, k.waitSequence + 1, obj.value);
        var p' := P.Process(p.id, p.parent, p.group, P.Blocked, p.exitCode, p.generation, p.rip, p.rsp, p.emergency, 0,
                            wait);
        (RawKernel(P.RawTable(t.entries[t.current := p'], t.current, t.live), k.endpoints, k.waitSequence + 1),
         Said(Ok))
  }
}
