/** The capability tables as the kernel keeps them: objects updated in place and linked by
    pointers.  Every call is proved to take the whole world of tables from one value of the
    model to the next.  The 64 slots are embedded in the table, hence a field and no array. */
module CapabilityTables {
  import opened Words
  import opened CapabilityModel

  /** The kernel's global next_table_incarnation. */
  class IncarnationCounter {
    var next: u64

    constructor ()
      ensures next == 1
    {
      next := 1;
    }
  }

  class CapabilityTable {
    var incarnation: u64
    var entries: seq<Entry<CapabilityTable>>

    /** Zeroed static storage. */
    constructor ()
      ensures RawTable(incarnation, entries) == ZeroTable()
    {
      incarnation := 0;
      entries := seq(SLOTS, _ => Entry(0, 0, 0, false, 0, None, 0, 0));
    }

    /** Every table in sight has its 64 slots and every parent pointer stays in sight. */
    static ghost predicate Sound(tables: set<CapabilityTable>)
      reads tables
    {
      && (forall t {:trigger t.entries} | t in tables :: |t.entries| == SLOTS)
      && (forall t, i {:trigger t.entries[i]} |
            t in tables && 0 <= i < SLOTS && t.entries[i].parent.Some? :: t.entries[i].parent.value in tables)
    }

    static ghost function View(tables: set<CapabilityTable>): World<CapabilityTable>
      requires Sound(tables)
      reads tables
    {
      map t | t in tables :: RawTable(t.incarnation, t.entries)
    }

    method Init(counter: IncarnationCounter, ghost tables: set<CapabilityTable>)
      requires this in tables && Sound(tables)
      modifies this, counter
      ensures Sound(tables)
      ensures State(View(tables), counter.next)
              == InitIn(State(old(View(tables)), old(counter.next)), this)
    {
      incarnation := counter.next;
      counter.next := (counter.next + 1) % U64;
      if incarnation == 0 {
        incarnation := counter.next;
        counter.next := (counter.next + 1) % U64;
      }
      ghost var value := incarnation;
      for index := 0 to SLOTS
        invariant |entries| == SLOTS && incarnation == value
        invariant forall k | 0 <= k < index :: entries[k] == Entry(0, 0, 1, false, 0, None, 0, 0)
        modifies this`entries
      {
        entries := entries[index := Entry(0, 0, 1, false, 0, None, 0, 0)];
      }
      assert RawTable(incarnation, entries) == FreshTable(value);
    }

    method ValidateHandle(handle: u64, ghost tables: set<CapabilityTable>)
      returns (status: Status, slot: u32)
      requires this in tables && Sound(tables)
      ensures status == Validate(View(tables), this, handle)
      ensures status == Ok ==> slot == HandleSlot(handle) < SLOTS
    {
      slot := HandleSlot(handle);
      if handle == 0 || HandleGeneration(handle) == 0 || slot >= SLOTS {
        return BadCap, slot;
      }
      var entry := entries[slot];
      if !entry.active || entry.generation != HandleGeneration(handle) {
        return Revoked, slot;
      }
      var current := entry;
      var depth := 0;
      while current.parent.Some?
        invariant depth <= MAX_DEPTH
        invariant current.parent.Some? ==> current.parent.value in tables
        invariant Walk(View(tables), entry, 0) == Walk(View(tables), current, depth)
        decreases MAX_DEPTH - depth
      {
        if current.depth == 0 || current.depth > MAX_DEPTH || depth >= MAX_DEPTH {
          return Revoked, slot;
        }
        depth := depth + 1;
        var parentTable := current.parent.value;
        if current.parentIncarnation != parentTable.incarnation {
          return Revoked, slot;
        }
        var parentSlot := HandleSlot(current.parentHandle);
        if current.parentHandle == 0 || HandleGeneration(current.parentHandle) == 0 || parentSlot >= SLOTS {
          return Revoked, slot;
        }
        var parentEntry := parentTable.entries[parentSlot];
        if !parentEntry.active || parentEntry.generation != HandleGeneration(current.parentHandle)
           || parentEntry.depth + 1 != current.depth {
          return Revoked, slot;
        }
        current := parentEntry;
      }
      status := Ok;
    }

    method LookupHandle(handle: u64, required: Rights, ghost tables: set<CapabilityTable>)
      returns (found: Found)
      requires this in tables && Sound(tables)
      ensures found == Lookup(View(tables), this, handle, required)
    {
      if !Known(required) {
        return Found(Inval, 0, 0);
      }
      var status, slot := ValidateHandle(handle, tables);
      if status != Ok {
        return Found(status, 0, 0);
      }
      if entries[slot].rights & required != required {
        return Found(Denied, 0, 0);
      }
      found := Found(Ok, entries[slot].obj, entries[slot].rights);
    }

    method MintWithParent(obj: u64, rights: Rights, link: Link<CapabilityTable>,
                          ghost tables: set<CapabilityTable>)
      returns (r: Response)
      requires this in tables && Sound(tables)
      requires link.Child? ==> link.table in tables
      modifies this`entries
      ensures Sound(tables)
      ensures (View(tables), r) == MintLinked(old(View(tables)), this, obj, rights, link)
    {
      if obj == 0 || !Known(rights) || (link.Child? && link.depth > MAX_DEPTH) {
        return Response(Inval, 0, 0);
      }
      for index := 0 to SLOTS
        invariant entries == old(entries)
        invariant FreeSlot(View(tables)[this], 0) == FreeSlot(View(tables)[this], index)
      {
        if entries[index].active || entries[index].generation == 0 {
          continue;
        }
        var generation := entries[index].generation;
        var entry :=
          match link
          case Root => Entry(obj, rights, generation, true, 0, None, 0, 0)
          case Child(p, h, depth) => Entry(obj, rights, generation, true, depth, Some(p), p.incarnation, h);
        entries := entries[index := entry];
        assert entry == NewEntry(old(View(tables)), generation, obj, rights, link);
        assert View(tables) == old(View(tables))[this := RawTable(incarnation, entries)];
        return Response(Ok, MakeHandle(index, generation), 0);
      }
      r := Response(NoMemory, 0, 0);
    }

    method MintRoot(obj: u64, rights: Rights, ghost tables: set<CapabilityTable>) returns (r: Response)
      requires this in tables && Sound(tables)
      modifies this`entries
      ensures Sound(tables)
      ensures (View(tables), r) == MintLinked(old(View(tables)), this, obj, rights, Root)
    {
      r := MintWithParent(obj, rights, Root, tables);
    }

    method RestrictHandle(source: u64, rights: Rights, ghost tables: set<CapabilityTable>)
      returns (r: Response)
      requires this in tables && Sound(tables)
      modifies this`entries
      ensures Sound(tables)
      ensures (View(tables), r) == Derive(old(View(tables)), this, source, this, rights, false)
    {
      if !Known(rights) {
        return Response(Inval, 0, 0);
      }
      var status, slot := ValidateHandle(source, tables);
      if status != Ok {
        return Response(status, 0, 0);
      }
      var held := entries[slot];
      if !Contained(rights, held.rights) {
        return Response(Denied, 0, 0);
      }
      r := MintWithParent(held.obj, rights, Child(this, source, (held.depth + 1) % U8), tables);
    }

    method TransferHandle(source: u64, destination: CapabilityTable, rights: Rights,
                          ghost tables: set<CapabilityTable>)
      returns (r: Response)
      requires this in tables && destination in tables && Sound(tables)
      modifies destination`entries
      ensures Sound(tables)
      ensures (View(tables), r) == Derive(old(View(tables)), this, source, destination, rights, true)
    {
      if !Known(rights) {
        return Response(Inval, 0, 0);
      }
      var status, slot := ValidateHandle(source, tables);
      if status != Ok {
        return Response(status, 0, 0);
      }
      var held := entries[slot];
      if held.rights & TRANSFER == 0 {
        return Response(Denied, 0, 0);
      }
      if !Contained(rights, held.rights) {
        return Response(Denied, 0, 0);
      }
      r := destination.MintWithParent(held.obj, rights, Child(this, source, (held.depth + 1) % U8), tables);
    }

    method RevokeHandle(handle: u64, ghost tables: set<CapabilityTable>) returns (status: Status)
      requires this in tables && Sound(tables)
      modifies this`entries
      ensures Sound(tables)
      ensures (View(tables), status) == RevokeIn(old(View(tables)), this, handle)
    {
      var slot;
      status, slot := ValidateHandle(handle, tables);
      if status != Ok {
        return;
      }
      if entries[slot].rights & REVOKE == 0 {
        return Denied;
      }
      entries := entries[slot := RetiredEntry(entries[slot])];
      assert Swept(old(entries), entries, {slot as nat}, SLOTS);
      SweptAll(RawTable(incarnation, old(entries)), entries, {slot as nat});
      assert View(tables) == old(View(tables))[this := RawTable(incarnation, entries)];
    }

    /** The in-place sweep of revoke_object. */
    method SweepNaming(obj: u64) returns (retired: nat)
      requires |entries| == SLOTS
      modifies this`entries
      ensures |entries| == SLOTS
      ensures var before: Table<CapabilityTable> := RawTable(incarnation, old(entries));
              && retired == |SlotsNaming(before, obj)|
              && RawTable(incarnation, entries) == RetireSlots(before, SlotsNaming(before, obj))
    {
      ghost var before: Table<CapabilityTable> := RawTable(incarnation, entries);
      ghost var slots := SlotsNaming(before, obj);
      ghost var done: set<nat> := {};
      retired := 0;
      for index := 0 to SLOTS
        invariant |entries| == SLOTS && retired == |done|
        invariant done == set i | i in slots && i < index
        invariant Swept(before.entries, entries, slots, index)
      {
        if entries[index].active && entries[index].obj == obj {
          entries := entries[index := RetiredEntry(entries[index])];
          retired := retired + 1;
          done := done + {index};
        }
      }
      assert done == slots;
      SweptAll(before, entries, slots);
    }

    /** The in-place sweep of revoke_all; process exit repeats it. */
    method SweepActive()
      requires |entries| == SLOTS
      modifies this`entries
      ensures |entries| == SLOTS
      ensures var before: Table<CapabilityTable> := RawTable(incarnation, old(entries));
              RawTable(incarnation, entries) == RetireSlots(before, ActiveSlots(before))
    {
      ghost var before: Table<CapabilityTable> := RawTable(incarnation, entries);
      for index := 0 to SLOTS
        invariant |entries| == SLOTS
        invariant Swept(before.entries, entries, ActiveSlots(before), index)
      {
        if entries[index].active {
          entries := entries[index := RetiredEntry(entries[index])];
        }
      }
      SweptAll(before, entries, ActiveSlots(before));
    }

    /** What a clean exit saves before it retires everything. */
    method SaveActive() returns (saved: seq<Saved>)
      requires |entries| == SLOTS
      ensures var tb: Table<CapabilityTable> := RawTable(incarnation, entries);
              saved == Snapshot(tb, 0, RESTART_CAPS)
    {
      ghost var tb: Table<CapabilityTable> := RawTable(incarnation, entries);
      saved := [];
      var index := 0;
      while index < SLOTS && |saved| < RESTART_CAPS
        invariant index <= SLOTS && |saved| <= RESTART_CAPS
        invariant saved + Snapshot(tb, index, RESTART_CAPS - |saved|) == Snapshot(tb, 0, RESTART_CAPS)
      {
        if entries[index].active {
          saved := saved + [Pair(entries[index])];
        }
        index := index + 1;
      }
    }

    /** The minting loop of a restart, up to the first refusal. */
    method MintSaved(saved: seq<Saved>, ghost tables: set<CapabilityTable>) returns (status: Status)
      requires this in tables && Sound(tables)
      modifies this`entries
      ensures Sound(tables)
      ensures (View(tables), status) == Remint(old(View(tables)), this, saved)
    {
      for i := 0 to |saved|
        invariant Sound(tables)
        invariant Remint(View(tables), this, saved[i..]) == Remint(old(View(tables)), this, saved)
      {
        assert saved[i..][1..] == saved[i + 1..];
        var minted := MintRoot(saved[i].obj, saved[i].rights, tables);
        if minted.status != Ok {
          return NoMemory;
        }
      }
      status := Ok;
    }

    method RevokeNaming(obj: u64, ghost tables: set<CapabilityTable>) returns (retired: nat)
      requires this in tables && Sound(tables)
      modifies this`entries
      ensures Sound(tables)
      ensures (View(tables), retired) == RevokeObjectIn(old(View(tables)), this, obj)
    {
      retired := 0;
      if obj != 0 {
        retired := SweepNaming(obj);
        assert View(tables) == old(View(tables))[this := RawTable(incarnation, entries)];
      }
    }

    method RevokeEvery(ghost tables: set<CapabilityTable>)
      requires this in tables && Sound(tables)
      modifies this`entries
      ensures Sound(tables)
      ensures View(tables) == RevokeAllIn(old(View(tables)), this)
    {
      SweepActive();
      assert View(tables) == old(View(tables))[this := RawTable(incarnation, entries)];
    }
  }

  /** The slots below `k` have been visited by a sweep that retires `slots`. */
  ghost predicate Swept<T>(before: seq<Entry<T>>, entries: seq<Entry<T>>, slots: set<nat>, k: nat) {
    && |before| == |entries| == SLOTS
    && forall i | 0 <= i < SLOTS :: entries[i] ==
         if i < k && i in slots then RetiredEntry(before[i]) else before[i]
  }

  lemma SweptAll<T>(before: Table<T>, entries: seq<Entry<T>>, slots: set<nat>)
    requires Swept(before.entries, entries, slots, SLOTS)
    ensures RawTable(before.incarnation, entries) == RetireSlots(before, slots)
  {
  }
}
