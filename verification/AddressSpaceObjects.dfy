/** The address-space calls as the kernel runs them: table words written in place, the page loops,
    and the bounded list of regions.  Each call is proved to compute what the model says. */
module AddressSpaceObjects {
  import opened Words
  import opened PageTables
  import opened AddressSpaces

  /** Physical memory as far as it holds page tables, and the page allocator's answers to come. */
  class PageMemory {
    var tables: map<Frame, Table>
    var supply: seq<Allocation>

    constructor (supply: seq<Allocation>)
      ensures View() == Mem(map[], supply)
    {
      tables := map[];
      this.supply := supply;
    }

    ghost function View(): Mem
      reads this
    {
      Mem(tables, supply)
    }

    method Load(f: Frame, i: nat) returns (e: Pte)
      ensures e == Read(View(), f, i)
    {
      e := if f in tables && i < FAN then tables[f][i] else EMPTY;
    }

    method Store(f: Frame, i: nat, e: Pte)
      modifies this`tables
      ensures View() == Write(old(View()), f, i, e)
    {
      if f in tables && i < FAN {
        tables := tables[f := tables[f][i := e]];
      }
    }

    /** A page from the allocator, cleared word by word. */
    method NewTable() returns (status: Status, frame: Frame)
      modifies this
      ensures (status, View(), frame) == AllocTable(old(View()))
    {
      if supply == [] {
        return NoMemory, 0;
      }
      var allocation := supply[0];
      supply := supply[1..];
      match allocation
      case Failed(st) => return if st == Ok then Fault else st, 0;
      case Unusable => return Fault, 0;
      case Page(g) =>
        var words: seq<Pte> := if g in tables then tables[g] else seq(FAN, _ => EMPTY);
        for index := 0 to FAN
          invariant |words| == FAN && forall k | 0 <= k < index :: words[k] == EMPTY
        {
          words := words[index := EMPTY];
        }
        assert words == seq(FAN, _ => EMPTY);
        tables := tables[g := words];
        return Ok, g;
    }

    method Child(table: Frame, index: nat, user: bool) returns (status: Status, child: Frame)
      modifies this
      ensures (status, View(), child) == ChildTable(old(View()), table, index, user)
    {
      var entry := Load(table, index);
      if entry.present {
        if user && !entry.user {
          return Denied, 0;
        }
        return Ok, entry.frame;
      }
      var made;
      status, made := NewTable();
      if status != Ok {
        return status, 0;
      }
      Store(table, index, LinkPte(made, user));
      return Ok, made;
    }

    /** Follow the three links above the leaf table. */
    method WalkToPte(root: Frame, va: u64, user: bool) returns (d: Outcome)
      requires Canonical(va)
      ensures d == Descend(View(), root, Path(va / PAGE_SIZE), user)
    {
      var path := Path(va / PAGE_SIZE);
      ghost var mem := View();
      var entry := Load(root, path[0]);
      if !entry.present { return Stopped(NotFound); }
      if user && !entry.user { return Stopped(Denied); }
      var pdpt := entry.frame;
      assert Descend(mem, root, path, user) == Descend(mem, pdpt, path[1..], user);
      entry := Load(pdpt, path[1]);
      if !entry.present { return Stopped(NotFound); }
      if entry.large { return Stopped(Inval); }
      if user && !entry.user { return Stopped(Denied); }
      var pd := entry.frame;
      assert path[1..][1..] == path[2..];
      assert Descend(mem, pdpt, path[1..], user) == Descend(mem, pd, path[2..], user);
      entry := Load(pd, path[2]);
      if !entry.present { return Stopped(NotFound); }
      if entry.large { return Stopped(Inval); }
      if user && !entry.user { return Stopped(Denied); }
      assert path[2..][1..] == path[3..];
      assert Descend(mem, pd, path[2..], user) == Descend(mem, entry.frame, path[3..], user);
      assert |path[3..]| == 1 && path[3..][0] == path[3];
      return Reached(entry.frame, path[3]);
    }

    /** One turn of the mapping loop: three tables found or made, then the leaf. */
    method InstallAt(root: Frame, va: u64, pa: u64, flags: Flags) returns (status: Status)
      modifies this
      ensures (status, View())
              == Install(old(View()), root, Path(va / PAGE_SIZE), flags.user, LeafPte(pa / PAGE_SIZE, flags))
    {
      var path := Path(va / PAGE_SIZE);
      ghost var leaf := LeafPte(pa / PAGE_SIZE, flags);
      ghost var mem0 := View();
      var pdpt, pd, pt;
      status, pdpt := Child(root, path[0], flags.user);
      if status != Ok { return; }
      ghost var mem1 := View();
      assert Install(mem0, root, path, flags.user, leaf) == Install(mem1, pdpt, path[1..], flags.user, leaf);
      status, pd := Child(pdpt, path[1], flags.user);
      assert path[1..][1..] == path[2..] && path[2..][1..] == path[3..];
      if status != Ok { return; }
      ghost var mem2 := View();
      assert Install(mem1, pdpt, path[1..], flags.user, leaf) == Install(mem2, pd, path[2..], flags.user, leaf);
      status, pt := Child(pd, path[2], flags.user);
      if status != Ok { return; }
      ghost var mem3 := View();
      assert Install(mem2, pd, path[2..], flags.user, leaf) == Install(mem3, pt, path[3..], flags.user, leaf);
      var entry := Load(pt, path[3]);
      if entry.present { return Busy; }
      Store(pt, path[3], LeafPte(pa / PAGE_SIZE, flags));
      status := Ok;
    }
  }

  class AddressSpace {
    var root: Frame
    var regions: seq<Region>

    constructor (root: Frame)
      ensures View() == Space(root, [])
    {
      this.root := root;
      regions := [];
    }

    ghost function View(): Space
      reads this
    {
      Space(root, regions)
    }

    /** A new space, with the template's upper half copied entry by entry. */
    static method Create(memory: PageMemory, template: AddressSpace?) returns (status: Status, space: AddressSpace?)
      modifies memory
      ensures
        var from := if template == null then None else Some(template.root);
        var (st, mem', root) := CreateRoot(old(memory.View()), from);
        && status == st && memory.View() == mem'
        && (st == Ok <==> space != null)
        && (space != null ==> fresh(space) && space.View() == Space(root, []))
    {
      var root;
      status, root := memory.NewTable();
      if status != Ok {
        return status, null;
      }
      if template != null {
        ghost var blank, from := memory.View(), template.root;
        var words := memory.tables[root];
        for index := 256 to FAN
          invariant memory.View() == blank && |words| == FAN
          invariant forall k | 0 <= k < FAN :: words[k] ==
                      if 256 <= k < index then Read(blank, from, k) else EMPTY
        {
          var entry := memory.Load(template.root, index);
          words := words[index := entry];
        }
        assert words == seq(FAN, i requires 0 <= i < FAN =>
          if i >= 256 then Read(blank, from, i) else EMPTY);
        memory.tables := memory.tables[root := words];
      }
      space := new AddressSpace(root);
    }

    method MapRegion(memory: PageMemory, va: u64, pa: u64, length: u64, flags: Flags) returns (status: Status)
      modifies this, memory
      ensures (status, memory.View(), View()) == Map(old(memory.View()), old(View()), va, pa, length, flags)
    {
      if length == 0 || !Aligned(va) || !Aligned(pa) || !Aligned(length) || !Canonical(va)
         || va + length >= U64 || !Canonical(va + length - 1) || pa > PTE_ADDRESS
         || length > PHYSICAL_LIMIT - pa || !(flags.read || flags.write || flags.exec)
         || flags.unknown || (flags.write && flags.exec) {
        return Inval;
      }
      if flags.user && (va >= USER_LIMIT || va + length > USER_LIMIT) {
        return Denied;
      }
      if |regions| >= MAX_REGIONS {
        return NoMemory;
      }
      status := MapLoop(memory, va, pa, length, flags);
      if status == Ok {
        regions := regions + [Region(va, pa, length, flags)];
      }
    }

    /** The page loop, `offset` by `offset`. */
    method MapLoop(memory: PageMemory, va: u64, pa: u64, length: u64, flags: Flags) returns (status: Status)
      requires Aligned(va) && Aligned(pa) && Aligned(length) && va + length < U64 && pa + length < U64
      modifies memory
      ensures var (st, mem', _) := MapRange(old(memory.View()), root, va, pa, length, flags);
              status == st && memory.View() == mem'
    {
      hide Path, Install;
      ghost var total := MapRange(memory.View(), root, va, pa, length, flags);
      var offset := 0;
      while offset < length
        invariant offset <= length && Aligned(offset)
        invariant var rest := MapPages(memory.View(), root, (va + offset) / PAGE_SIZE, (pa + offset) / PAGE_SIZE,
                                       (length - offset) / PAGE_SIZE, flags);
                  rest.0 == total.0 && rest.1 == total.1
        decreases length - offset
      {
        OffsetSteps(va, pa, length, offset);
        status := memory.InstallAt(root, va + offset, pa + offset, flags);
        if status != Ok {
          return;
        }
        offset := offset + PAGE_SIZE;
      }
      status := Ok;
    }

    static lemma OffsetSteps(va: u64, pa: u64, length: u64, offset: nat)
      requires Aligned(va) && Aligned(pa) && Aligned(length) && Aligned(offset) && offset < length
      ensures offset + PAGE_SIZE <= length && Aligned(offset + PAGE_SIZE)
      ensures (va + offset + PAGE_SIZE) / PAGE_SIZE == (va + offset) / PAGE_SIZE + 1
      ensures (pa + offset + PAGE_SIZE) / PAGE_SIZE == (pa + offset) / PAGE_SIZE + 1
      ensures (length - offset) / PAGE_SIZE == (length - (offset + PAGE_SIZE)) / PAGE_SIZE + 1
    {
    }

    method LookupAddress(memory: PageMemory, va: u64) returns (found: Found)
      ensures found == Lookup(memory.View(), View(), va)
    {
      if !Aligned(va) || !Canonical(va) {
        return Found(Inval, 0, NO_FLAGS);
      }
      var d := memory.WalkToPte(root, va, false);
      match d
      case Stopped(st) => return Found(st, 0, NO_FLAGS);
      case Reached(t, i) =>
        var entry := memory.Load(t, i);
        if !entry.present {
          return Found(NotFound, 0, NO_FLAGS);
        }
        return Found(Ok, entry.frame * PAGE_SIZE, ShownFlags(entry));
    }

    method CheckUserRange(memory: PageMemory, va: u64, length: u64, write: bool, execute: bool)
      returns (status: Status)
      ensures status == UserRangeOk(memory.View(), View(), va, length, write, execute)
    {
      if length == 0 || va + length >= U64 || va >= USER_LIMIT || va + length > USER_LIMIT {
        return Fault;
      }
      var end := va + length;
      var cursor := va - va % PAGE_SIZE;
      assert cursor / PAGE_SIZE == va / PAGE_SIZE && Aligned(cursor);
      while cursor < end
        invariant Aligned(cursor)
        invariant PagesOk(memory.View(), root, va / PAGE_SIZE, end, write, execute)
                  == PagesOk(memory.View(), root, cursor / PAGE_SIZE, end, write, execute)
        decreases end - cursor
      {
        CursorSteps(cursor);
        CanonicalHalves(cursor);
        var d := memory.WalkToPte(root, cursor, true);
        if d.Stopped? {
          return Fault;
        }
        var entry := memory.Load(d.table, d.index);
        if !entry.present || !entry.user || (write && !entry.writable) || (execute && entry.noExecute) {
          return Fault;
        }
        cursor := cursor + PAGE_SIZE;
      }
      CursorSteps(cursor);
      status := Ok;
    }

    static lemma CursorSteps(cursor: nat)
      requires Aligned(cursor)
      ensures (cursor + PAGE_SIZE) / PAGE_SIZE == cursor / PAGE_SIZE + 1 && Aligned(cursor + PAGE_SIZE)
      ensures cursor / PAGE_SIZE * PAGE_SIZE == cursor
    {
    }

    method CheckRegions() returns (status: Status)
      ensures status == Validate(View())
    {
      if |regions| > MAX_REGIONS {
        return Inval;
      }
      for i := 0 to |regions|
        invariant ValidateRegions(regions) == ValidateRegions(regions[i..])
      {
        assert regions[i..][1..] == regions[i + 1..];
        if !RegionOk(regions[i]) {
          return Inval;
        }
        if RegionDenied(regions[i]) {
          return Denied;
        }
      }
      assert regions[|regions|..] == [];
      status := Ok;
    }
  }
}
