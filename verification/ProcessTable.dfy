/** The process table as the kernel keeps it: a fixed array of slots updated in place. */
module ProcessTables {
  import opened Words
  import opened ProcessModel
  import ProcessRuns

  class ProcessTable {
    const entries: array<Process>
    var current: u32
    var live: nat

    constructor ()
      ensures entries.Length == SLOTS && fresh(entries) && View() == InitTable()
    {
      entries := new Process[SLOTS](_ => Blank(1));
      current := NONE;
      live := 0;
      new;
      assert entries[..] == InitTable().entries;
    }

    ghost function View(): Table
      requires entries.Length == SLOTS
      reads this, entries
    {
      RawTable(entries[..], current, live)
    }

    method FindSlot(id: u64) returns (slot: Option<nat>)
      requires entries.Length == SLOTS
      ensures slot == Find(View(), id)
    {
      var index := IdSlot(id);
      if index >= SLOTS || IdGeneration(id) == 0 {
        return None;
      }
      var p := entries[index];
      if p.state == Unused || p.generation != IdGeneration(id) || p.id != id {
        return None;
      }
      slot := Some(index);
    }

    method NewProcess(spec: Spec) returns (status: Status, id: u64)
      requires entries.Length == SLOTS
      modifies this, entries
      ensures (status, View(), id) == Create(old(View()), spec)
    {
      if spec.rip == 0 || spec.rsp == 0 {
        return Inval, 0;
      }
      if spec.parent != 0 {
        var parent := FindSlot(spec.parent);
        if parent.None? {
          return NoEntry, 0;
        }
        if entries[parent.value].state == Zombie {
          return Perm, 0;
        }
      }
      var slot := FirstUnused();
      if slot == SLOTS {
        return NoSpace, 0;
      }
      id := Settle(spec, slot);
      status := Ok;
    }

    method FirstUnused() returns (slot: nat)
      requires entries.Length == SLOTS
      ensures slot == FreeSlot(View(), 0)
    {
      for index := 0 to SLOTS
        invariant FreeSlot(View(), 0) == FreeSlot(View(), index)
      {
        if entries[index].state == Unused {
          return index;
        }
      }
      slot := SLOTS;
    }

    /** A new process in the slot. */
    method Settle(spec: Spec, slot: nat) returns (id: u64)
      requires entries.Length == SLOTS && slot < SLOTS
      modifies this`live, entries
      ensures var p := Born(spec, slot, old(View()).entries[slot]);
              id == p.id && View() == RawTable(old(View()).entries[slot := p], current, old(live) + 1)
    {
      var p := Born(spec, slot, entries[slot]);
      entries[slot] := p;
      live := live + 1;
      id := p.id;
    }

    /** Round robin from just behind the current slot. */
    method RunNext() returns (status: Status, id: u64)
      requires entries.Length == SLOTS
      modifies this, entries
      ensures (status, View(), id) == Schedule(old(View()))
    {
      hide Find, IdSlot, IdGeneration;
      var start := if current == NONE then 0 else (current + 1) % SLOTS;
      for offset := 0 to SLOTS
        invariant View() == old(View()) && NextReady(View(), start, 0) == NextReady(View(), start, offset)
      {
        var index := (start + offset) % SLOTS;
        if entries[index].state != Ready {
          continue;
        }
        SwitchTo(index);
        return Ok, entries[index].id;
      }
      return Busy, 0;
    }

    /** The running process goes back to ready and the one at `index` runs. */
    method SwitchTo(index: nat)
      requires entries.Length == SLOTS && index < SLOTS
      modifies this`current, entries
      ensures
        var t := old(View());
        var yielded := if t.current < SLOTS && t.entries[t.current].state == Running
                       then t.entries[t.current := SetState(t.entries[t.current], Ready)] else t.entries;
        View() == RawTable(yielded[index := SetState(yielded[index], Running)], index, t.live)
    {
      if current < SLOTS && entries[current].state == Running {
        entries[current] := SetState(entries[current], Ready);
      }
      entries[index] := SetState(entries[index], Running);
      current := index;
    }

    method YieldCurrent() returns (status: Status)
      requires entries.Length == SLOTS
      modifies entries
      ensures (status, View()) == Yield(old(View()))
    {
      if current >= SLOTS {
        return Inval;
      }
      if entries[current].state != Running {
        return Busy;
      }
      entries[current] := SetState(entries[current], Ready);
      status := Ok;
    }

    method EndProcess(id: u64, code: int) returns (status: Status)
      requires entries.Length == SLOTS
      modifies this, entries
      ensures (status, View()) == Exit(old(View()), id, code)
    {
      var slot := FindSlot(id);
      if slot.None? {
        return Stale;
      }
      if entries[slot.value].state == Zombie {
        return Busy;
      }
      entries[slot.value] := Ended(entries[slot.value], code);
      if current == slot.value {
        current := NONE;
      }
      status := Ok;
    }

    /** The ancestor walk, one stored parent link at a time. */
    method IsDescendant(root: u64, candidate: u64) returns (found: bool)
      requires entries.Length == SLOTS
      ensures found == DescendantOf(View(), root, candidate, SLOTS)
    {
      var node := FindSlot(candidate);
      ghost var id := candidate;
      var depth := 0;
      while node.Some? && depth < SLOTS
        invariant depth <= SLOTS && node == Find(View(), id)
        invariant DescendantOf(View(), root, candidate, SLOTS) == DescendantOf(View(), root, id, SLOTS - depth)
        decreases SLOTS - depth
      {
        var parent := entries[node.value].parent;
        if parent == root {
          return true;
        }
        if parent == 0 {
          return false;
        }
        node := FindSlot(parent);
        id := parent;
        depth := depth + 1;
      }
      found := false;
    }

    /** Group termination, over direct children or the whole tree; the table changes under the
        scan, the ancestor walk included. */
    method TerminateGroup(parent: u64, group: u64, code: int, tree: bool) returns (status: Status, count: nat)
      requires entries.Length == SLOTS
      requires forall i: nat | i < SLOTS && entries[i].state != Unused :: Find(View(), entries[i].id) == Some(i)
      modifies this, entries
      ensures (status, View(), count) == Terminate(old(View()), parent, group, code, tree)
    {
      var slot := FindSlot(parent);
      if parent == 0 || slot.None? {
        return Stale, 0;
      }
      ghost var before := View();
      ghost var doomed := DoomedSlots(before, parent, group, tree);
      count := 0;
      for i := 0 to SLOTS
        invariant Swept(before, View(), doomed, code, i)
        invariant count == |Before(doomed, i)|
      {
        ghost var now := View();
        SweptSlot(before, now, parent, group, code, tree, i);
        BeforeNext(doomed, i);
        hide Find, Doomed, DoomedSlots, Exit, Swept, Before;
        var ends := IsDoomed(parent, group, tree, i);
        if ends {
          var st := EndProcess(entries[i].id, code);
          if st == Ok {
            count := count + 1;
          }
        }
      }
      SweptAll(before, View(), parent, group, code, tree);
      status := Ok;
    }

    /** The test the scan applies to slot `i`. */
    method IsDoomed(parent: u64, group: u64, tree: bool, i: nat) returns (ends: bool)
      requires entries.Length == SLOTS && i < SLOTS
      ensures ends == Doomed(View(), parent, group, tree, i)
    {
      var p := entries[i];
      if p.state == Unused || p.state == Zombie || p.group != group {
        return false;
      }
      if tree {
        ends := IsDescendant(parent, p.id);
      } else {
        ends := p.parent == parent;
      }
    }

    method MoveGroup(parent: u64, group: u64, from: RunState, to: RunState) returns (status: Status)
      requires entries.Length == SLOTS
      modifies entries
      ensures (status, View()) == GroupMove(old(View()), parent, group, from, to)
    {
      var slot := FindSlot(parent);
      if parent == 0 || slot.None? {
        return Stale;
      }
      for i := 0 to SLOTS
        invariant forall k | 0 <= k < i :: entries[k] == Moved(old(entries[k]), parent, group, from, to)
        invariant forall k | i <= k < SLOTS :: entries[k] == old(entries[k])
      {
        entries[i] := Moved(entries[i], parent, group, from, to);
      }
      assert entries[..] == GroupMove(old(View()), parent, group, from, to).1.entries;
      status := Ok;
    }

    method CancelWait(id: u64) returns (status: Status)
      requires entries.Length == SLOTS
      modifies entries
      ensures (status, View()) == CancelIpc(old(View()), id)
    {
      var slot := FindSlot(id);
      if slot.None? {
        return Stale;
      }
      var p := entries[slot.value];
      if p.state != Blocked || p.wait.buffer == 0 {
        return Busy;
      }
      entries[slot.value] := Woken(p, Ready, E_CANCELED);
      status := Ok;
    }

    method PauseOthers(actor: u64) returns (status: Status)
      requires entries.Length == SLOTS
      modifies entries
      ensures (status, View()) == EmergencyPause(old(View()), actor)
    {
      var slot := FindSlot(actor);
      if actor == 0 || slot.None? {
        return Stale;
      }
      for i := 0 to SLOTS
        invariant forall k | 0 <= k < i :: entries[k] == Paused(old(entries[k]), actor)
        invariant forall k | i <= k < SLOTS :: entries[k] == old(entries[k])
      {
        entries[i] := Paused(entries[i], actor);
      }
      assert entries[..] == EmergencyPause(old(View()), actor).1.entries;
      status := Ok;
    }

    method ResumePaused(actor: u64) returns (status: Status)
      requires entries.Length == SLOTS
      modifies entries
      ensures (status, View()) == EmergencyResume(old(View()), actor)
    {
      var slot := FindSlot(actor);
      if actor == 0 || slot.None? {
        return Stale;
      }
      for i := 0 to SLOTS
        invariant forall k | 0 <= k < i :: entries[k] == Resumed(old(entries[k]))
        invariant forall k | i <= k < SLOTS :: entries[k] == old(entries[k])
      {
        entries[i] := Resumed(entries[i]);
      }
      assert entries[..] == EmergencyResume(old(View()), actor).1.entries;
      status := Ok;
    }

    method RestartProcess(id: u64, minted: bool) returns (status: Status)
      requires entries.Length == SLOTS
      modifies this, entries
      ensures (status, View()) == Restart(old(View()), id, minted)
    {
      var slot := FindSlot(id);
      if slot.None? {
        return Stale;
      }
      var p := entries[slot.value];
      if p.state != Zombie || p.rip == 0 || p.rsp == 0 {
        return Busy;
      }
      entries[slot.value] := Process(p.id, p.parent, p.group, Zombie, 0, p.generation, p.rip, p.rsp, p.emergency, 0,
                                     NO_WAIT);
      if !minted {
        return NoSpace;
      }
      entries[slot.value] := SetState(entries[slot.value], Ready);
      if live == 0 {
        live := 1;
      }
      assert View().entries == Restart(old(View()), id, minted).1.entries;
      status := Ok;
    }

    /** The slot is free again under its next generation. */
    method Clear(slot: nat)
      requires entries.Length == SLOTS && slot < SLOTS
      modifies this`live, entries
      ensures View() == RawTable(old(View()).entries[slot := Blank(NextGeneration(old(entries[slot]).generation))],
                                 current, if old(live) != 0 then old(live) - 1 else 0)
    {
      entries[slot] := Blank(NextGeneration(entries[slot].generation));
      if live != 0 {
        live := live - 1;
      }
    }

    method ReapChild(parent: u64, child: u64) returns (status: Status, reaped: u64)
      requires entries.Length == SLOTS
      modifies this, entries
      ensures (status, View(), reaped) == WaitChild(old(View()), parent, child)
    {
      hide Find, IdSlot, IdGeneration, Reapable;
      if parent != 0 {
        var slot := FindSlot(parent);
        if slot.None? {
          return Stale, 0;
        }
      }
      for index := 0 to SLOTS
        invariant View() == old(View()) && ReapSlot(View(), parent, child, 0) == ReapSlot(View(), parent, child, index)
      {
        if !Reapable(entries[index], parent, child) {
          continue;
        }
        reaped := entries[index].id;
        Clear(index);
        return Ok, reaped;
      }
      return Busy, 0;
    }
  }

  function Before(slots: set<nat>, i: nat): set<nat> { set k | k in slots && k < i }

  lemma BeforeNext(slots: set<nat>, i: nat)
    ensures |Before(slots, i + 1)| == |Before(slots, i)| + if i in slots then 1 else 0
  {
    assert Before(slots, i + 1) == Before(slots, i) + if i in slots then {i} else {};
  }

  /** The slots below `i` have been scanned by a termination of `doomed`. */
  ghost predicate Swept(before: Table, now: Table, doomed: set<nat>, code: int, i: nat) {
    && now.live == before.live
    && now.current == (if before.current in doomed && before.current < i then NONE else before.current)
    && forall k: nat | k < SLOTS ::
         now.entries[k] == if k < i && k in doomed then Ended(before.entries[k], code) else before.entries[k]
  }

  /** The scan reaches slot `i`: the changed table still tells whether it was doomed at the start,
      and ending it moves the scan on. */
  lemma SweptSlot(before: Table, now: Table, parent: u64, group: u64, code: int, tree: bool, i: nat)
    requires i < SLOTS && Swept(before, now, DoomedSlots(before, parent, group, tree), code, i)
    requires before.entries[i].state != Unused ==> Find(before, before.entries[i].id) == Some(i)
    ensures
      var doomed := DoomedSlots(before, parent, group, tree);
      var (status, ended) := Exit(now, now.entries[i].id, code);
      && (Doomed(now, parent, group, tree, i) <==> i in doomed)
      && (if i in doomed then status == Ok && Swept(before, ended, doomed, code, i + 1)
          else Swept(before, now, doomed, code, i + 1))
  {
    hide Find, DescendantOf;
    assert ProcessRuns.SameShape(before, now);
    ProcessRuns.ShapeKeepsDescent(before, now, parent, before.entries[i].id, SLOTS);
  }

  lemma SweptAll(before: Table, now: Table, parent: u64, group: u64, code: int, tree: bool)
    requires parent != 0 && Find(before, parent).Some?
    requires Swept(before, now, DoomedSlots(before, parent, group, tree), code, SLOTS)
    ensures (Ok, now, |Before(DoomedSlots(before, parent, group, tree), SLOTS)|)
            == Terminate(before, parent, group, code, tree)
  {
    hide Find, Doomed;
    var doomed := DoomedSlots(before, parent, group, tree);
    assert Before(doomed, SLOTS) == doomed;
    assert now.entries == Terminate(before, parent, group, code, tree).1.entries;
  }
}
