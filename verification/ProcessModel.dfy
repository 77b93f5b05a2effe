/** The process table as a value: 32 generation-tagged slots, a current index and a live count. */
module ProcessModel {
  import opened Words

  const SLOTS: nat := 32
  const NONE: u32 := U32 - 1

  datatype RunState = Unused | Ready | Running | Blocked | Zombie | Frozen

  /** The receive a blocked process is waiting in; all zero when it waits in none. */
  datatype Wait = Wait(buffer: u64, sequence: nat, endpoint: nat)

  const NO_WAIT: Wait := Wait(0, 0, 0)

  datatype Process = Process(
    id: u64, parent: u64, group: u64, state: RunState, exitCode: int, generation: u32,
    rip: u64, rsp: u64, emergency: bool, result: int, wait: Wait)

  function Blank(generation: u32): Process {
    Process(0, 0, 0, Unused, 0, generation, 0, 0, false, 0, NO_WAIT)
  }

  datatype RawTable = RawTable(entries: seq<Process>, current: u32, live: nat)

  type Table = t: RawTable | |t.entries| == SLOTS
    witness RawTable(seq(SLOTS, _ => Blank(1)), NONE, 0)

  datatype Status = Ok | Inval | NoSpace | NoEntry | Busy | Perm | Stale

  datatype Spec = Spec(rip: u64, rsp: u64, parent: u64, group: u64)

  // --- identifiers: generation in the high word, slot + 1 in the low word ---

  function MakeId(slot: nat, generation: u32): u64
    requires slot < SLOTS
  {
    generation * U32 + slot + 1
  }

  function IdSlot(id: u64): u32 { if id % U32 == 0 then U32 - 1 else id % U32 - 1 }

  function IdGeneration(id: u64): u32 { id / U32 }

  lemma IdRoundTrip(slot: nat, generation: u32)
    requires slot < SLOTS
    ensures IdSlot(MakeId(slot, generation)) == slot && IdGeneration(MakeId(slot, generation)) == generation
  {
    var id := MakeId(slot, generation);
    assert id / U32 == generation && id % U32 == slot + 1;
  }

  lemma IdParts(id: u64)
    requires IdSlot(id) < SLOTS
    ensures MakeId(IdSlot(id), IdGeneration(id)) == id
  {
  }

  /** The slot an id resolves to. */
  function Find(t: Table, id: u64): Option<nat> {
    var slot := IdSlot(id);
    if slot >= SLOTS || IdGeneration(id) == 0 then None
    else
      var p := t.entries[slot];
      if p.state == Unused || p.generation != IdGeneration(id) || p.id != id then None else Some(slot)
  }

  // --- operations ---

  function InitTable(): Table { RawTable(seq(SLOTS, _ => Blank(1)), NONE, 0) }

  function FreeSlot(t: Table, i: nat): (s: nat)
    requires i <= SLOTS
    ensures i <= s <= SLOTS && (s < SLOTS ==> t.entries[s].state == Unused)
    decreases SLOTS - i
  {
    if i == SLOTS || t.entries[i].state == Unused then i else FreeSlot(t, i + 1)
  }

  function Born(spec: Spec, slot: nat, was: Process): Process
    requires slot < SLOTS
  {
    var generation := if was.generation == 0 then 1 else was.generation;
    Process(MakeId(slot, generation), spec.parent, spec.group, Ready, 0, generation,
            spec.rip, spec.rsp, was.emergency, 0, was.wait)
  }

  function Create(t: Table, spec: Spec): (Status, Table, u64) {
    if spec.rip == 0 || spec.rsp == 0 then (Inval, t, 0)
    else if spec.parent != 0 && Find(t, spec.parent).None? then (NoEntry, t, 0)
    else if spec.parent != 0 && t.entries[Find(t, spec.parent).value].state == Zombie then (Perm, t, 0)
    else
      var i := FreeSlot(t, 0);
      if i == SLOTS then (NoSpace, t, 0)
      else
        var p := Born(spec, i, t.entries[i]);
        (Ok, RawTable(t.entries[i := p], t.current, t.live + 1), p.id)
  }

  /** Distance from slot `start` forward to slot `i`, around the table. */
  function Ahead(start: nat, i: nat): nat
    requires start < SLOTS && i < SLOTS
  {
    if i >= start then i - start else i + SLOTS - start
  }

  function ScanStart(t: Table): (s: nat)
    ensures s < SLOTS
  {
    if t.current == NONE then 0 else (t.current + 1) % SLOTS
  }

  /** The first ready slot at or after `start` + `offset`, around the table. */
  function NextReady(t: Table, start: nat, offset: nat): (r: Option<nat>)
    requires start < SLOTS && offset <= SLOTS
    ensures r.Some? ==> r.value < SLOTS && t.entries[r.value].state == Ready
    decreases SLOTS - offset
  {
    if offset == SLOTS then None
    else if t.entries[(start + offset) % SLOTS].state == Ready then Some((start + offset) % SLOTS)
    else NextReady(t, start, offset + 1)
  }

  function SetState(p: Process, state: RunState): Process {
    Process(p.id, p.parent, p.group, state, p.exitCode, p.generation, p.rip, p.rsp, p.emergency, p.result, p.wait)
  }

  function Schedule(t: Table): (Status, Table, u64) {
    match NextReady(t, ScanStart(t), 0)
    case None => (Busy, t, 0)
    case Some(i) =>
      var parked :=
        if t.current < SLOTS && t.entries[t.current].state == Running
        then t.entries[t.current := SetState(t.entries[t.current], Ready)] else t.entries;
      (Ok, RawTable(parked[i := SetState(parked[i], Running)], i, t.live), parked[i].id)
  }

  function Yield(t: Table): (Status, Table) {
    if t.current >= SLOTS then (Inval, t)
    else if t.entries[t.current].state != Running then (Busy, t)
    else (Ok, RawTable(t.entries[t.current := SetState(t.entries[t.current], Ready)], t.current, t.live))
  }

  function Ended(p: Process, code: int): Process {
    Process(p.id, p.parent, p.group, Zombie, code, p.generation, p.rip, p.rsp, p.emergency, p.result, p.wait)
  }

  /** Exit, clean exit and kill differ only in what they do to capabilities. */
  function Exit(t: Table, id: u64, code: int): (Status, Table) {
    match Find(t, id)
    case None => (Stale, t)
    case Some(i) =>
      if t.entries[i].state == Zombie then (Busy, t)
      else (Ok, RawTable(t.entries[i := Ended(t.entries[i], code)], if t.current == i then NONE else t.current, t.live))
  }

  /** The bounded ancestor walk: at most `hops` links up from `id`. */
  predicate DescendantOf(t: Table, root: u64, id: u64, hops: nat)
    decreases hops
  {
    && hops > 0 && Find(t, id).Some?
    && var parent := t.entries[Find(t, id).value].parent;
    && (parent == root || (parent != 0 && DescendantOf(t, root, parent, hops - 1)))
  }

  /** The slots a group termination ends: live members of the group under `parent`, its direct
      children or the whole tree. */
  predicate Doomed(t: Table, parent: u64, group: u64, tree: bool, i: nat)
    requires i < SLOTS
  {
    var p := t.entries[i];
    && p.state != Unused && p.state != Zombie && p.group == group
    && if tree then DescendantOf(t, parent, p.id, SLOTS) else p.parent == parent
  }

  function DoomedSlots(t: Table, parent: u64, group: u64, tree: bool): set<nat> {
    set i: nat | i < SLOTS && Doomed(t, parent, group, tree, i)
  }

  /** All the doomed of the present table end at once. */
  function Terminate(t: Table, parent: u64, group: u64, code: int, tree: bool): (Status, Table, nat) {
    if parent == 0 || Find(t, parent).None? then (Stale, t, 0)
    else
      var doomed := DoomedSlots(t, parent, group, tree);
      (Ok,
       RawTable(seq(SLOTS, i requires 0 <= i < SLOTS =>
                  if i in doomed then Ended(t.entries[i], code) else t.entries[i]),
                if t.current in doomed then NONE else t.current, t.live),
       |doomed|)
  }

  function Moved(p: Process, parent: u64, group: u64, from: RunState, to: RunState): Process {
    if p.state == from && p.parent == parent && p.group == group then SetState(p, to) else p
  }

  function GroupMove(t: Table, parent: u64, group: u64, from: RunState, to: RunState): (Status, Table) {
    if parent == 0 || Find(t, parent).None? then (Stale, t)
    else
      (Ok, RawTable(seq(SLOTS, i requires 0 <= i < SLOTS => Moved(t.entries[i], parent, group, from, to)),
                    t.current, t.live))
  }

  /** A wait ended with `result`, its process in `state`. */
  function Woken(p: Process, state: RunState, result: int): Process {
    Process(p.id, p.parent, p.group, state, p.exitCode, p.generation, p.rip, p.rsp, p.emergency, result, NO_WAIT)
  }

  const E_CANCELED: int := -125

  function CancelIpc(t: Table, id: u64): (Status, Table) {
    match Find(t, id)
    case None => (Stale, t)
    case Some(i) =>
      if t.entries[i].state != Blocked || t.entries[i].wait.buffer == 0 then (Busy, t)
      else (Ok, RawTable(t.entries[i := Woken(t.entries[i], Ready, E_CANCELED)], t.current, t.live))
  }

  function Paused(p: Process, actor: u64): Process {
    if p.state == Unused || p.id == actor then p
    else if p.state == Blocked && p.wait.buffer != 0 then
      Process(p.id, p.parent, p.group, Frozen, p.exitCode, p.generation, p.rip, p.rsp, true, E_CANCELED, NO_WAIT)
    else if p.state == Ready then
      Process(p.id, p.parent, p.group, Frozen, p.exitCode, p.generation, p.rip, p.rsp, true, p.result, p.wait)
    else p
  }

  function EmergencyPause(t: Table, actor: u64): (Status, Table) {
    if actor == 0 || Find(t, actor).None? then (Stale, t)
    else (Ok, RawTable(seq(SLOTS, i requires 0 <= i < SLOTS => Paused(t.entries[i], actor)), t.current, t.live))
  }

  function Resumed(p: Process): Process {
    if p.state == Frozen && p.emergency then
      Process(p.id, p.parent, p.group, Ready, p.exitCode, p.generation, p.rip, p.rsp, false, p.result, p.wait)
    else p
  }

  function EmergencyResume(t: Table, actor: u64): (Status, Table) {
    if actor == 0 || Find(t, actor).None? then (Stale, t)
    else (Ok, RawTable(seq(SLOTS, i requires 0 <= i < SLOTS => Resumed(t.entries[i])), t.current, t.live))
  }

  /** `minted`: did re-minting the saved capabilities succeed?  A failure leaves the zombie with
      its wait cleared. */
  function Restart(t: Table, id: u64, minted: bool): (Status, Table) {
    match Find(t, id)
    case None => (Stale, t)
    case Some(i) =>
      var p := t.entries[i];
      if p.state != Zombie || p.rip == 0 || p.rsp == 0 then (Busy, t)
      else
        var p' := Process(p.id, p.parent, p.group, if minted then Ready else Zombie, 0, p.generation,
                          p.rip, p.rsp, p.emergency, 0, NO_WAIT);
        (if minted then Ok else NoSpace,
         RawTable(t.entries[i := p'], t.current, if minted && t.live == 0 then 1 else t.live))
  }

  function NextGeneration(g: u32): u32 { if g == U32 - 1 then 1 else g + 1 }

  predicate Reapable(p: Process, parent: u64, child: u64) {
    p.state == Zombie && p.parent == parent && (child == 0 || p.id == child)
  }

  function ReapSlot(t: Table, parent: u64, child: u64, i: nat): (s: nat)
    requires i <= SLOTS
    ensures i <= s <= SLOTS && (s < SLOTS ==> Reapable(t.entries[s], parent, child))
    decreases SLOTS - i
  {
    if i == SLOTS || Reapable(t.entries[i], parent, child) then i else ReapSlot(t, parent, child, i + 1)
  }

  function WaitChild(t: Table, parent: u64, child: u64): (Status, Table, u64) {
    if parent != 0 && Find(t, parent).None? then (Stale, t, 0)
    else
      var i := ReapSlot(t, parent, child, 0);
      if i == SLOTS then (Busy, t, 0)
      else
        (Ok, RawTable(t.entries[i := Blank(NextGeneration(t.entries[i].generation))], t.current,
                      if t.live != 0 then t.live - 1 else 0),
         t.entries[i].id)
  }
}
