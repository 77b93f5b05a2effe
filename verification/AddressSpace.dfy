/** Address spaces as values: the range checks of the mapping calls, the page-by-page mapping
    loop, lookups, user-range checks, and systems of spaces that share an upper half. */
module AddressSpaces {
  import opened Words
  import opened PageTables

  const PAGE_SIZE: nat := 0x1000
  const USER_LIMIT: nat := 0x8000_0000_0000
  const PTE_ADDRESS: nat := 0x000F_FFFF_FFFF_F000
  const PHYSICAL_LIMIT: nat := 0x0010_0000_0000_0000
  const MAX_REGIONS: nat := 128

  /** The mapping flags; `unknown` stands for any undefined bit. */
  datatype Flags = Flags(read: bool, write: bool, exec: bool, user: bool, unknown: bool)

  datatype Region = Region(va: u64, pa: u64, length: u64, flags: Flags)

  datatype Space = Space(root: Frame, regions: seq<Region>)

  predicate Aligned(v: nat) { v % PAGE_SIZE == 0 }

  /** 48-bit addresses, bit 47 extended through bit 63. */
  predicate Canonical(va: u64) {
    var upper, sign := va / 0x1_0000_0000_0000, va / 0x8000_0000_0000 % 2;
    (sign == 0 && upper == 0) || (sign != 0 && upper == 0xFFFF)
  }

  /** The low n base-512 digits of `v`, most significant first. */
  function Digits(v: nat, n: nat): (ds: seq<nat>)
    ensures |ds| == n && forall k | 0 <= k < n :: ds[k] < FAN
  {
    if n == 0 then [] else Digits(v / FAN, n - 1) + [v % FAN]
  }

  /** The four table indices of page number `page`. */
  function Path(page: nat): (p: seq<nat>)
    ensures |p| == 4 && forall k | 0 <= k < 4 :: p[k] < FAN
  {
    Digits(page, 4)
  }

  lemma PathUnfolds(page: nat)
    ensures Path(page) == [page / FAN / FAN / FAN % FAN, page / FAN / FAN % FAN, page / FAN % FAN, page % FAN]
  {
    assert Digits(page / FAN, 3) == Digits(page / FAN / FAN, 2) + [page / FAN % FAN];
    assert Digits(page / FAN / FAN, 2) == Digits(page / FAN / FAN / FAN, 1) + [page / FAN / FAN % FAN];
    assert Digits(page / FAN / FAN / FAN, 1) == [] + [page / FAN / FAN / FAN % FAN];
  }

  lemma ShiftTwice(v: nat, d: nat)
    requires d == 0x1000 || d == 0x20_0000 || d == 0x4000_0000
    ensures v / d / FAN == v / (d * FAN)
  {
  }

  /** The indices as the walk cuts them out of an address, by shifting and masking. */
  lemma PathShifts(va: u64)
    ensures Path(va / PAGE_SIZE)
            == [va / 0x80_0000_0000 % FAN, va / 0x4000_0000 % FAN, va / 0x20_0000 % FAN, va / 0x1000 % FAN]
  {
    PathUnfolds(va / PAGE_SIZE);
    ShiftTwice(va, 0x1000);
    ShiftTwice(va, 0x20_0000);
    ShiftTwice(va, 0x4000_0000);
  }

  function LeafPte(frame: Frame, flags: Flags): Pte {
    Pte(true, flags.write, flags.user, !flags.exec, false, frame)
  }

  // --- mapping ---

  function MapCheck(regions: seq<Region>, va: u64, pa: u64, length: u64, flags: Flags): Status {
    if length == 0 || !Aligned(va) || !Aligned(pa) || !Aligned(length) || !Canonical(va)
       || va + length >= U64 || !Canonical(va + length - 1) || pa > PTE_ADDRESS
       || length > PHYSICAL_LIMIT - pa || !(flags.read || flags.write || flags.exec)
       || flags.unknown || (flags.write && flags.exec) then Inval
    else if flags.user && (va >= USER_LIMIT || va + length > USER_LIMIT) then Denied
    else if |regions| >= MAX_REGIONS then NoMemory
    else Ok
  }

  /** The mapping loop from page `page` on: status, memory, and how many pages were installed. */
  function MapPages(mem: Mem, root: Frame, page: nat, frame: nat, pages: nat, flags: Flags): (Status, Mem, nat)
    decreases pages
  {
    if pages == 0 then (Ok, mem, 0)
    else
      var (st, mem1) := Install(mem, root, Path(page), flags.user, LeafPte(frame, flags));
      if st != Ok then (st, mem1, 0)
      else
        var (st', mem', done) := MapPages(mem1, root, page + 1, frame + 1, pages - 1, flags);
        (st', mem', done + 1)
  }

  function MapRange(mem: Mem, root: Frame, va: u64, pa: u64, length: u64, flags: Flags): (Status, Mem, nat) {
    MapPages(mem, root, va / PAGE_SIZE, pa / PAGE_SIZE, length / PAGE_SIZE, flags)
  }

  function Map(mem: Mem, space: Space, va: u64, pa: u64, length: u64, flags: Flags): (Status, Mem, Space) {
    var check := MapCheck(space.regions, va, pa, length, flags);
    if check != Ok then (check, mem, space)
    else
      var (st, mem', _) := MapRange(mem, space.root, va, pa, length, flags);
      if st != Ok then (st, mem', space)
      else (Ok, mem', Space(space.root, space.regions + [Region(va, pa, length, flags)]))
  }

  lemma PageCount(length: nat)
    requires Aligned(length)
    ensures length / PAGE_SIZE * PAGE_SIZE == length
  {
  }

  // --- reading ---

  datatype Found = Found(status: Status, physical: nat, flags: Flags)

  const NO_FLAGS: Flags := Flags(false, false, false, false, false)

  function ShownFlags(e: Pte): Flags { Flags(true, e.writable, !e.noExecute, e.user, false) }

  function Lookup(mem: Mem, space: Space, va: u64): Found {
    if !Aligned(va) || !Canonical(va) then Found(Inval, 0, NO_FLAGS)
    else
      match Descend(mem, space.root, Path(va / PAGE_SIZE), false)
      case Stopped(st) => Found(st, 0, NO_FLAGS)
      case Reached(t, i) =>
        var e := Read(mem, t, i);
        if !e.present then Found(NotFound, 0, NO_FLAGS)
        else Found(Ok, e.frame * PAGE_SIZE, ShownFlags(e))
  }

  predicate PageOk(mem: Mem, root: Frame, page: nat, write: bool, execute: bool) {
    var d := Descend(mem, root, Path(page), true);
    && d.Reached?
    && var e := Read(mem, d.table, d.index);
    && e.present && e.user && (write ==> e.writable) && (execute ==> !e.noExecute)
  }

  /** The checking loop from page `page` on, up to the page holding byte `end` - 1. */
  predicate PagesOk(mem: Mem, root: Frame, page: nat, end: u64, write: bool, execute: bool)
    decreases end - page * PAGE_SIZE
  {
    page * PAGE_SIZE < end ==>
      PageOk(mem, root, page, write, execute) && PagesOk(mem, root, page + 1, end, write, execute)
  }

  function UserRangeOk(mem: Mem, space: Space, va: u64, length: u64, write: bool, execute: bool): Status {
    if length == 0 || va + length >= U64 || va >= USER_LIMIT || va + length > USER_LIMIT then Fault
    else if PagesOk(mem, space.root, va / PAGE_SIZE, va + length, write, execute) then Ok
    else Fault
  }

  predicate RegionOk(r: Region) {
    && r.length != 0 && Aligned(r.va) && Aligned(r.pa) && Aligned(r.length)
    && r.va + r.length < U64 && Canonical(r.va) && Canonical(r.va + r.length - 1)
    && (r.flags.read || r.flags.write || r.flags.exec) && !(r.flags.write && r.flags.exec)
  }

  predicate RegionDenied(r: Region) {
    r.flags.user && (r.va >= USER_LIMIT || r.length > USER_LIMIT - r.va)
  }

  function ValidateRegions(regions: seq<Region>): Status
    decreases |regions|
  {
    if regions == [] then Ok
    else if !RegionOk(regions[0]) then Inval
    else if RegionDenied(regions[0]) then Denied
    else ValidateRegions(regions[1..])
  }

  function Validate(space: Space): Status {
    if |space.regions| > MAX_REGIONS then Inval else ValidateRegions(space.regions)
  }

  // --- addresses and paths ---

  lemma CanonicalHalves(va: u64)
    ensures Canonical(va) <==> va < USER_LIMIT || va >= U64 - USER_LIMIT
  {
  }

  const LOW_PAGES: nat := 0x8_0000_0000
  const ALL_PAGES: nat := 0x10_0000_0000_0000

  /** Page numbers of canonical addresses: a low and a high half. */
  predicate CanonicalPage(page: nat) {
    page < LOW_PAGES || ALL_PAGES - LOW_PAGES <= page < ALL_PAGES
  }

  lemma CanonicalAddressPage(va: u64)
    ensures Canonical(va) <==> CanonicalPage(va / PAGE_SIZE)
    ensures va < USER_LIMIT <==> va / PAGE_SIZE < LOW_PAGES
  {
    CanonicalHalves(va);
  }

  function Rebuild(path: seq<nat>): int
    requires |path| == 4
  {
    ((path[0] * FAN + path[1]) * FAN + path[2]) * FAN + path[3]
    + if path[0] >= 256 then ALL_PAGES - 2 * LOW_PAGES else 0
  }

  /** A canonical page is determined by its four indices. */
  lemma PathRebuilds(page: nat)
    requires CanonicalPage(page)
    ensures Rebuild(Path(page)) == page
    ensures Path(page)[0] < 256 <==> page < LOW_PAGES
  {
    PathUnfolds(page);
    var p1, p2, p3 := page / FAN, page / FAN / FAN, page / FAN / FAN / FAN;
    assert page == p1 * FAN + page % FAN && p1 == p2 * FAN + p1 % FAN && p2 == p3 * FAN + p2 % FAN;
    if page < LOW_PAGES {
      assert p1 < 0x400_0000 && p2 < 0x2_0000 && p3 < 0x100;
    } else {
      assert 0x800_0000_0000 - 0x400_0000 <= p1 < 0x800_0000_0000;
      assert 0x4_0000_0000 - 0x2_0000 <= p2 < 0x4_0000_0000;
      assert 0x200_0000 - 0x100 <= p3 < 0x200_0000;
      assert p3 / FAN == 0xFFFF;
    }
  }

  lemma PathInjective(a: nat, b: nat)
    requires CanonicalPage(a) && CanonicalPage(b) && Path(a) == Path(b)
    ensures a == b
  {
    PathRebuilds(a);
    PathRebuilds(b);
  }

  // --- the mapping loop against the flat map ---

  ghost predicate IsRoot(places: map<Frame, Place>, f: Frame) {
    f in places && places[f] == RootPlace(f)
  }

  /** Consecutive pages inside one canonical half. */
  ghost predicate PageRun(page: nat, pages: nat) {
    page + pages <= LOW_PAGES || ALL_PAGES - LOW_PAGES <= page <= page + pages <= ALL_PAGES
  }

  ghost predicate FlagsOk(flags: Flags) { !(flags.write && flags.exec) }

  lemma InstallPage(mem: Mem, places: map<Frame, Place>, root: Frame, page: nat, frame: nat, flags: Flags)
    returns (places': map<Frame, Place>)
    requires Good(mem, places) && IsRoot(places, root) && FlagsOk(flags)
    ensures
      var mem' := Install(mem, root, Path(page), flags.user, LeafPte(frame, flags)).1;
      Good(mem', places') && PlacesGrown(places, places') && Grown(mem, mem')
  {
    InstallKeeps(mem, places, root, Path(page), flags.user, LeafPte(frame, flags));
    places' := InstallPlaces(mem, places, root, Path(page), flags.user);
  }

  /** One installed page shows at its own number in its own space; in another space it can only
      show at the same number, and only in the shared upper half. */
  lemma InstallPageSeen(mem: Mem, places: map<Frame, Place>, root: Frame, page: nat, frame: nat, flags: Flags,
                        h: Frame, q: nat)
    requires Good(mem, places) && IsRoot(places, root) && IsRoot(places, h) && FlagsOk(flags)
    requires CanonicalPage(page) && CanonicalPage(q)
    ensures
      var (st, mem1) := Install(mem, root, Path(page), flags.user, LeafPte(frame, flags));
      && (q != page || st != Ok || (h != root && page < LOW_PAGES) ==>
            Seen(mem1, h, Path(q)) == Seen(mem, h, Path(q)))
      && (q == page && st == Ok && h == root ==>
            Seen(mem1, h, Path(q)) == Some(LeafPte(frame, flags)) && Seen(mem, h, Path(q)) == None)
  {
    var leaf := LeafPte(frame, flags);
    var (st, mem1) := Install(mem, root, Path(page), flags.user, leaf);
    var places1 := InstallPage(mem, places, root, page, frame, flags);
    InstallSeen(mem, places, root, Path(page), flags.user, leaf, h, Path(q));
    if st == Ok && Cell(mem1, h, Path(q)) == Cell(mem1, root, Path(page)) {
      CellPlace(mem1, places1, h, Path(q));
      CellPlace(mem1, places1, root, Path(page));
      var (t, i) := Cell(mem1, root, Path(page)).value;
      assert [] + Path(q) == Path(q) && [] + Path(page) == Path(page);
      PathInjective(q, page);
      PathRebuilds(page);
    }
  }

  lemma InstallOtherPage(mem: Mem, places: map<Frame, Place>, root: Frame, page: nat, frame: nat, flags: Flags, q: nat)
    returns (places': map<Frame, Place>)
    requires Good(mem, places) && IsRoot(places, root) && FlagsOk(flags)
    requires CanonicalPage(page) && CanonicalPage(q) && q != page
    ensures
      var mem' := Install(mem, root, Path(page), flags.user, LeafPte(frame, flags)).1;
      Good(mem', places') && IsRoot(places', root) && Seen(mem', root, Path(q)) == Seen(mem, root, Path(q))
  {
    InstallPageSeen(mem, places, root, page, frame, flags, root, q);
    places' := InstallPage(mem, places, root, page, frame, flags);
  }

  lemma {:induction false} MapPagesKeeps(mem: Mem, places: map<Frame, Place>, root: Frame, page: nat, frame: nat,
                                         pages: nat, flags: Flags)
    returns (places': map<Frame, Place>)
    requires Good(mem, places) && IsRoot(places, root) && FlagsOk(flags)
    ensures
      var (st, mem', done) := MapPages(mem, root, page, frame, pages, flags);
      && Good(mem', places') && PlacesGrown(places, places') && Grown(mem, mem')
      && done <= pages && (st == Ok <==> done == pages)
    decreases pages
  {
    places' := places;
    if pages > 0 {
      places' := InstallPage(mem, places, root, page, frame, flags);
      var (st, mem1) := Install(mem, root, Path(page), flags.user, LeafPte(frame, flags));
      if st == Ok {
        places' := MapPagesKeeps(mem1, places', root, page + 1, frame + 1, pages - 1, flags);
      }
    }
  }

  /** Pages outside the mapped run keep their entries in every space; in the lower half so do all
      pages of every other space. */
  lemma {:induction false} MapPagesElsewhere(mem: Mem, places: map<Frame, Place>, root: Frame, page: nat, frame: nat,
                                             pages: nat, flags: Flags, h: Frame, q: nat)
    requires Good(mem, places) && IsRoot(places, root) && FlagsOk(flags) && PageRun(page, pages)
    requires IsRoot(places, h) && CanonicalPage(q)
    ensures
      var (st, mem', done) := MapPages(mem, root, page, frame, pages, flags);
      (h != root && page < LOW_PAGES) || !(page <= q < page + done) ==>
        Seen(mem', h, Path(q)) == Seen(mem, h, Path(q))
    decreases pages
  {
    hide Good, Path, Seen, Install, FlagsOk;
    if pages > 0 {
      InstallPageSeen(mem, places, root, page, frame, flags, h, q);
      var (st, mem1) := Install(mem, root, Path(page), flags.user, LeafPte(frame, flags));
      if st == Ok {
        var places1 := InstallPage(mem, places, root, page, frame, flags);
        MapPagesElsewhere(mem1, places1, root, page + 1, frame + 1, pages - 1, flags, h, q);
      }
    }
  }

  lemma MapPagesFirst(mem: Mem, places: map<Frame, Place>, root: Frame, page: nat, frame: nat,
                      pages: nat, flags: Flags)
    requires Good(mem, places) && IsRoot(places, root) && FlagsOk(flags) && PageRun(page, pages) && pages > 0
    requires Install(mem, root, Path(page), flags.user, LeafPte(frame, flags)).0 == Ok
    ensures
      var mem' := MapPages(mem, root, page, frame, pages, flags).1;
      Seen(mem', root, Path(page)) == Some(LeafPte(frame, flags)) && Seen(mem, root, Path(page)) == None
  {
    hide Good, Path;
    InstallPageSeen(mem, places, root, page, frame, flags, root, page);
    var places1 := InstallPage(mem, places, root, page, frame, flags);
    var mem1 := Install(mem, root, Path(page), flags.user, LeafPte(frame, flags)).1;
    MapPagesElsewhere(mem1, places1, root, page + 1, frame + 1, pages - 1, flags, root, page);
  }

  /** The pages of the run that were reached show their own frame, and were free before. */
  lemma {:induction false} MapPagesInside(mem: Mem, places: map<Frame, Place>, root: Frame, page: nat, frame: nat,
                                          pages: nat, flags: Flags, q: nat)
    requires Good(mem, places) && IsRoot(places, root) && FlagsOk(flags) && PageRun(page, pages)
    requires page <= q < page + MapPages(mem, root, page, frame, pages, flags).2 && CanonicalPage(q)
    ensures
      var mem' := MapPages(mem, root, page, frame, pages, flags).1;
      Seen(mem', root, Path(q)) == Some(LeafPte(frame + (q - page), flags)) && Seen(mem, root, Path(q)) == None
    decreases pages
  {
    hide Good, Path, Seen, Install, FlagsOk;
    if q == page {
      MapPagesFirst(mem, places, root, page, frame, pages, flags);
    } else {
      var mem1 := Install(mem, root, Path(page), flags.user, LeafPte(frame, flags)).1;
      var places1 := InstallOtherPage(mem, places, root, page, frame, flags, q);
      MapPagesInside(mem1, places1, root, page + 1, frame + 1, pages - 1, flags, q);
    }
  }

  // --- the calls against the flat map ---

  lemma LookupIsSeen(mem: Mem, places: map<Frame, Place>, space: Space, va: u64)
    requires Inv(mem, places) && IsRoot(places, space.root) && Aligned(va) && Canonical(va)
    ensures Lookup(mem, space, va) ==
              match Seen(mem, space.root, Path(va / PAGE_SIZE))
              case None => Found(NotFound, 0, NO_FLAGS)
              case Some(e) => Found(Ok, e.frame * PAGE_SIZE, ShownFlags(e))
  {
    DescendIsCell(mem, places, space.root, Path(va / PAGE_SIZE));
  }

  /** An accepted range is page-aligned, inside one half and below the physical limit. */
  lemma CheckedRange(regions: seq<Region>, va: u64, pa: u64, length: u64, flags: Flags)
    requires MapCheck(regions, va, pa, length, flags) == Ok
    ensures PageRun(va / PAGE_SIZE, length / PAGE_SIZE) && FlagsOk(flags)
    ensures va < USER_LIMIT <==> va / PAGE_SIZE < LOW_PAGES
    ensures va / PAGE_SIZE * PAGE_SIZE == va && pa / PAGE_SIZE * PAGE_SIZE == pa
    ensures length / PAGE_SIZE * PAGE_SIZE == length
  {
    PageCount(va);
    PageCount(pa);
    PageCount(length);
    CanonicalHalves(va);
    CanonicalHalves(va + length - 1);
  }

  /** How many bytes a call has mapped when it returns. */
  function MappedBytes(mem: Mem, space: Space, va: u64, pa: u64, length: u64, flags: Flags): nat {
    if MapCheck(space.regions, va, pa, length, flags) != Ok then 0
    else MapRange(mem, space.root, va, pa, length, flags).2 * PAGE_SIZE
  }

  /** Which page of a mapped run an address falls on, and where its frame lies. */
  lemma PageInside(va: u64, pa: u64, q: u64, done: nat)
    requires Aligned(q) && va / PAGE_SIZE * PAGE_SIZE == va && pa / PAGE_SIZE * PAGE_SIZE == pa
    ensures va <= q < va + done * PAGE_SIZE <==> va / PAGE_SIZE <= q / PAGE_SIZE < va / PAGE_SIZE + done
    ensures va <= q ==> (pa / PAGE_SIZE + (q / PAGE_SIZE - va / PAGE_SIZE)) * PAGE_SIZE == pa + (q - va)
  {
  }

  lemma GoodIsInv(mem: Mem, places: map<Frame, Place>)
    requires Good(mem, places)
    ensures Inv(mem, places)
  {
  }

  /** A successful map adds exactly its own pages, readable, to the space's flat map; a failing
      one adds a prefix of them and records no region. */
  lemma MapExact(mem: Mem, places: map<Frame, Place>, space: Space, va: u64, pa: u64, length: u64, flags: Flags, q: u64)
    requires Good(mem, places) && IsRoot(places, space.root) && Aligned(q) && Canonical(q)
    ensures
      var (st, mem', space') := Map(mem, space, va, pa, length, flags);
      var mapped := MappedBytes(mem, space, va, pa, length, flags);
      && (st == Ok ==> mapped == length && space'.regions == space.regions + [Region(va, pa, length, flags)])
      && (st != Ok ==> (mapped < length || mapped == 0) && space' == space)
      && Lookup(mem', space', q) ==
           if va <= q < va + mapped
           then Found(Ok, pa + (q - va), Flags(true, flags.write, flags.exec, flags.user, false))
           else Lookup(mem, space, q)
  {
    if MapCheck(space.regions, va, pa, length, flags) == Ok {
      hide Good, Path, Seen, FlagsOk, MapPages, Canonical;
      CheckedRange(space.regions, va, pa, length, flags);
      var page, frame, pages, target := va / PAGE_SIZE, pa / PAGE_SIZE, length / PAGE_SIZE, q / PAGE_SIZE;
      var (st, mem', done) := MapPages(mem, space.root, page, frame, pages, flags);
      var places' := MapPagesKeeps(mem, places, space.root, page, frame, pages, flags);
      GoodIsInv(mem, places);
      GoodIsInv(mem', places');
      PageInside(va, pa, q, done);
      CanonicalAddressPage(q);
      hide Aligned, PageRun, MapCheck;
      if page <= target < page + done {
        MapPagesInside(mem, places, space.root, page, frame, pages, flags, target);
      } else {
        MapPagesElsewhere(mem, places, space.root, page, frame, pages, flags, space.root, target);
      }
      LookupIsSeen(mem, places, space, q);
      LookupIsSeen(mem', places', space, q);
    }
  }

  /** Mapping in one space's lower half changes no lookup in any other space; in the upper half it
      can only show, in a space that shares the tables, at the mapped addresses themselves. */
  lemma MapIsolated(mem: Mem, places: map<Frame, Place>, space: Space, va: u64, pa: u64, length: u64, flags: Flags,
                    other: Space, q: u64)
    requires Good(mem, places) && IsRoot(places, space.root) && IsRoot(places, other.root)
    requires other.root != space.root && Aligned(q) && Canonical(q)
    ensures
      var mapped := MappedBytes(mem, space, va, pa, length, flags);
      va < USER_LIMIT || !(va <= q < va + mapped) ==>
        Lookup(Map(mem, space, va, pa, length, flags).1, other, q) == Lookup(mem, other, q)
  {
    if MapCheck(space.regions, va, pa, length, flags) == Ok {
      hide Good, Path, Seen, FlagsOk, MapPages, Canonical;
      CheckedRange(space.regions, va, pa, length, flags);
      var page, frame, pages, target := va / PAGE_SIZE, pa / PAGE_SIZE, length / PAGE_SIZE, q / PAGE_SIZE;
      var (st, mem', done) := MapPages(mem, space.root, page, frame, pages, flags);
      var places' := MapPagesKeeps(mem, places, space.root, page, frame, pages, flags);
      GoodIsInv(mem, places);
      GoodIsInv(mem', places');
      PageCount(q);
      CanonicalAddressPage(q);
      MapPagesElsewhere(mem, places, space.root, page, frame, pages, flags, other.root, target);
      LookupIsSeen(mem, places, other, q);
      LookupIsSeen(mem', places', other, q);
    }
  }

  // --- user ranges ---

  /** The page at `va` is mapped for user mode with the asked rights, by the flat map alone. */
  predicate UserPage(mem: Mem, space: Space, va: u64, write: bool, execute: bool) {
    var f := Lookup(mem, space, va);
    f.status == Ok && f.flags.user && (write ==> f.flags.write) && (execute ==> f.flags.exec)
  }

  lemma PageOkIsUserPage(mem: Mem, places: map<Frame, Place>, space: Space, page: nat, write: bool, execute: bool)
    requires Inv(mem, places) && IsRoot(places, space.root) && page < LOW_PAGES
    ensures PageOk(mem, space.root, page, write, execute) <==> UserPage(mem, space, page * PAGE_SIZE, write, execute)
  {
    LowPageAddress(page);
    UserWalkExact(mem, places, space.root, Path(page));
    LookupIsSeen(mem, places, space, page * PAGE_SIZE);
  }

  lemma LowPageAddress(page: nat)
    requires page < LOW_PAGES
    ensures page * PAGE_SIZE < USER_LIMIT && Aligned(page * PAGE_SIZE) && Canonical(page * PAGE_SIZE)
    ensures page * PAGE_SIZE / PAGE_SIZE == page
  {
    CanonicalHalves(page * PAGE_SIZE);
  }

  lemma {:induction false} PagesOkExact(mem: Mem, places: map<Frame, Place>, space: Space, page: nat, end: u64,
                                        write: bool, execute: bool)
    requires Inv(mem, places) && IsRoot(places, space.root) && end <= USER_LIMIT
    ensures PagesOk(mem, space.root, page, end, write, execute) <==>
              forall k: nat | page <= k && k * PAGE_SIZE < end :: UserPage(mem, space, k * PAGE_SIZE, write, execute)
    decreases end - page * PAGE_SIZE
  {
    hide Inv, IsRoot, PageOk, UserPage;
    if page * PAGE_SIZE < end {
      PageOkIsUserPage(mem, places, space, page, write, execute);
      PagesOkExact(mem, places, space, page + 1, end, write, execute);
    }
  }

  /** The range check accepts exactly the non-empty user ranges whose every page the flat map
      shows to user mode with the asked rights. */
  lemma UserRangeExact(mem: Mem, places: map<Frame, Place>, space: Space, va: u64, length: u64, write: bool,
                       execute: bool)
    requires Inv(mem, places) && IsRoot(places, space.root)
    ensures UserRangeOk(mem, space, va, length, write, execute) == Ok <==>
              && length > 0 && va + length <= USER_LIMIT
              && forall k: nat | va - PAGE_SIZE < k * PAGE_SIZE < va + length ::
                   UserPage(mem, space, k * PAGE_SIZE, write, execute)
  {
    if length > 0 && va + length <= USER_LIMIT {
      PagesOkExact(mem, places, space, va / PAGE_SIZE, va + length, write, execute);
      forall k: nat ensures va - PAGE_SIZE < k * PAGE_SIZE <==> va / PAGE_SIZE <= k {
      }
    }
  }

  // --- systems of spaces ---

  /** Everything that exists: the tables in memory and the spaces made so far, oldest first. */
  datatype System = System(mem: Mem, spaces: seq<Space>)

  datatype Op =
    | Create(template: Option<nat>)
    | MapInto(space: nat, va: u64, pa: u64, length: u64, flags: Flags)

  /** A fresh root, with the upper half of the template's root copied in. */
  function CreateRoot(mem: Mem, template: Option<Frame>): (Status, Mem, Frame) {
    var (st, mem', root) := AllocTable(mem);
    if st != Ok then (st, mem', 0)
    else if template.None? then (Ok, mem', root)
    else
      var copied := seq(FAN, i requires 0 <= i < FAN =>
        if i >= 256 then Read(mem', template.value, i) else EMPTY);
      (Ok, Mem(mem'.tables[root := copied], mem'.supply), root)
  }

  function Step(sys: System, op: Op): (Status, System) {
    match op
    case Create(template) =>
      var from := if template.Some? && template.value < |sys.spaces|
                  then Some(sys.spaces[template.value].root) else None;
      var (st, mem', root) := CreateRoot(sys.mem, from);
      (st, System(mem', if st == Ok then sys.spaces + [Space(root, [])] else sys.spaces))
    case MapInto(i, va, pa, length, flags) =>
      if i >= |sys.spaces| then (Inval, sys)
      else
        var (st, mem', space') := Map(sys.mem, sys.spaces[i], va, pa, length, flags);
        (st, System(mem', sys.spaces[i := space']))
  }

  function Run(sys: System, ops: seq<Op>): System
    decreases |ops|
  {
    if ops == [] then sys else Run(Step(sys, ops[0]).1, ops[1..])
  }

  ghost predicate SysInv(sys: System, places: map<Frame, Place>) {
    && Good(sys.mem, places)
    && (forall k | 0 <= k < |sys.spaces| :: IsRoot(places, sys.spaces[k].root))
    && (forall j, k | 0 <= j < k < |sys.spaces| :: sys.spaces[j].root != sys.spaces[k].root)
    && (forall k | 0 <= k < |sys.spaces| :: Validate(sys.spaces[k]) == Ok)
  }

  lemma CreateKeeps(mem: Mem, places: map<Frame, Place>, template: Option<Frame>)
    requires Good(mem, places) && (template.Some? ==> IsRoot(places, template.value))
    ensures
      var (st, mem', root) := CreateRoot(mem, template);
      if st == Ok
      then root !in mem.tables && Good(mem', places[root := RootPlace(root)]) && Grown(mem, mem')
      else Good(mem', places) && mem'.tables == mem.tables
  {
    AllocKeeps(mem, places);
    var (st, mem', root) := CreateRoot(mem, template);
    if st == Ok {
      var places' := places[root := RootPlace(root)];
      forall f, i: nat | f in places' && i < FAN ensures CellOk(mem', places', f, i) {
        if f != root {
          assert CellOk(mem, places, f, i);
        } else if template.Some? && i >= 256 {
          assert CellOk(mem, places, template.value, i);
        }
      }
    }
  }

  lemma {:induction false} CreateSeen(mem: Mem, places: map<Frame, Place>, template: Option<Frame>, h: Frame,
                                      q: seq<nat>)
    requires Good(mem, places) && (template.Some? ==> IsRoot(places, template.value)) && Full(places, h, q)
    ensures
      var (st, mem', root) := CreateRoot(mem, template);
      && Seen(mem', h, q) == Seen(mem, h, q)
      && Cell(mem', h, q) == Cell(mem, h, q)
    decreases |q|
  {
    AllocKeeps(mem, places);
    if |q| > 1 && Read(mem, h, q[0]).present {
      assert CellOk(mem, places, h, q[0]);
      CreateSeen(mem, places, template, Read(mem, h, q[0]).frame, q[1..]);
    }
  }

  /** The flat map of the new space: the template's in the upper half, nothing in the lower. */
  lemma NewRootSeen(mem: Mem, places: map<Frame, Place>, template: Option<Frame>, q: seq<nat>)
    requires Good(mem, places) && (template.Some? ==> IsRoot(places, template.value))
    requires |q| == 4 && forall i | 0 <= i < 4 :: q[i] < FAN
    ensures
      var (st, mem', root) := CreateRoot(mem, template);
      st == Ok ==> Seen(mem', root, q) == if template.Some? && q[0] >= 256 then Seen(mem, template.value, q) else None
  {
    AllocKeeps(mem, places);
    var (st, mem', root) := CreateRoot(mem, template);
    if st == Ok && template.Some? && q[0] >= 256 && Read(mem, template.value, q[0]).present {
      assert CellOk(mem, places, template.value, q[0]);
      assert Read(mem', root, q[0]) == Read(mem, template.value, q[0]);
      CreateSeen(mem, places, template, Read(mem, template.value, q[0]).frame, q[1..]);
    }
  }

  lemma {:induction false} ValidateAppend(regions: seq<Region>, r: Region)
    requires ValidateRegions(regions) == Ok && RegionOk(r) && !RegionDenied(r)
    ensures ValidateRegions(regions + [r]) == Ok
    decreases |regions|
  {
    if regions != [] {
      assert (regions + [r])[1..] == regions[1..] + [r];
      ValidateAppend(regions[1..], r);
    }
  }

  ghost predicate Onward(sys: System, later: System) {
    && Grown(sys.mem, later.mem) && |sys.spaces| <= |later.spaces|
    && forall k | 0 <= k < |sys.spaces| :: later.spaces[k].root == sys.spaces[k].root
  }

  lemma PlacesAreTables(mem: Mem, places: map<Frame, Place>)
    requires Good(mem, places)
    ensures places.Keys == mem.tables.Keys
  {
  }

  lemma CreateStepKeeps(sys: System, places: map<Frame, Place>, template: Option<nat>)
    returns (places': map<Frame, Place>)
    requires SysInv(sys, places)
    ensures var sys' := Step(sys, Create(template)).1;
            SysInv(sys', places') && PlacesGrown(places, places') && Onward(sys, sys')
  {
    PlacesAreTables(sys.mem, places);
    var from := if template.Some? && template.value < |sys.spaces|
                then Some(sys.spaces[template.value].root) else None;
    CreateKeeps(sys.mem, places, from);
    var (st, mem', root) := CreateRoot(sys.mem, from);
    places' := places;
    hide Good, Validate, CreateRoot, SysInv;
    if st == Ok {
      places' := places[root := RootPlace(root)];
      SpaceJoins(sys, places, mem', root);
    } else {
      SpacesStay(sys, places, mem');
    }
  }

  lemma SpaceJoins(sys: System, places: map<Frame, Place>, mem: Mem, root: Frame)
    requires SysInv(sys, places) && root !in places && Good(mem, places[root := RootPlace(root)]) && Grown(sys.mem, mem)
    ensures var places', sys' := places[root := RootPlace(root)], System(mem, sys.spaces + [Space(root, [])]);
            SysInv(sys', places') && PlacesGrown(places, places') && Onward(sys, sys')
  {
    hide Good, Grown;
    var more := sys.spaces + [Space(root, [])];
    assert forall k | 0 <= k < |sys.spaces| :: more[k] == sys.spaces[k] && IsRoot(places, sys.spaces[k].root);
  }

  lemma SpacesStay(sys: System, places: map<Frame, Place>, mem: Mem)
    requires SysInv(sys, places) && Good(mem, places) && mem.tables == sys.mem.tables
    ensures SysInv(System(mem, sys.spaces), places) && PlacesGrown(places, places)
        && Onward(sys, System(mem, sys.spaces))
  {
    hide Good, Validate;
  }

  lemma MapStepKeeps(sys: System, places: map<Frame, Place>, i: nat, va: u64, pa: u64, length: u64, flags: Flags)
    returns (places': map<Frame, Place>)
    requires SysInv(sys, places) && i < |sys.spaces|
    ensures var (st, mem', space') := Map(sys.mem, sys.spaces[i], va, pa, length, flags);
            && Good(mem', places') && PlacesGrown(places, places') && Grown(sys.mem, mem')
            && space'.root == sys.spaces[i].root && Validate(space') == Ok
  {
    places' := places;
    var space := sys.spaces[i];
    if MapCheck(space.regions, va, pa, length, flags) == Ok {
      CheckedRange(space.regions, va, pa, length, flags);
      places' := MapPagesKeeps(sys.mem, places, space.root, va / PAGE_SIZE, pa / PAGE_SIZE, length / PAGE_SIZE, flags);
      ValidateAppend(space.regions, Region(va, pa, length, flags));
    }
  }

  lemma StepKeeps(sys: System, places: map<Frame, Place>, op: Op) returns (places': map<Frame, Place>)
    requires SysInv(sys, places)
    ensures var sys' := Step(sys, op).1;
            SysInv(sys', places') && PlacesGrown(places, places') && Onward(sys, sys')
  {
    match op
    case Create(template) =>
      places' := CreateStepKeeps(sys, places, template);
    case MapInto(i, va, pa, length, flags) =>
      places' := places;
      if i < |sys.spaces| {
        places' := MapStepKeeps(sys, places, i, va, pa, length, flags);
      }
  }

  lemma {:induction false} RunKeeps(sys: System, places: map<Frame, Place>, ops: seq<Op>)
    returns (places': map<Frame, Place>)
    requires SysInv(sys, places)
    ensures var sys' := Run(sys, ops);
            SysInv(sys', places') && PlacesGrown(places, places') && Onward(sys, sys')
    decreases |ops|
  {
    places' := places;
    if ops != [] {
      places' := StepKeeps(sys, places, ops[0]);
      places' := RunKeeps(Step(sys, ops[0]).1, places', ops[1..]);
    }
  }

  // --- the promises, over every run from an empty memory ---

  function Boot(supply: seq<Allocation>): System { System(Mem(map[], supply), []) }

  lemma ReachKeeps(supply: seq<Allocation>, ops: seq<Op>) returns (places: map<Frame, Place>)
    requires FreshSupply(Mem(map[], supply))
    ensures SysInv(Run(Boot(supply), ops), places)
  {
    var none: map<Frame, Place> := map[];
    places := RunKeeps(Boot(supply), none, ops);
  }

  /** In every reachable system a map call does exactly what the flat map promises: to its own
      space, and to every other one. */
  lemma ReachableMapExact(supply: seq<Allocation>, ops: seq<Op>, i: nat, j: nat, va: u64, pa: u64, length: u64,
                          flags: Flags, q: u64)
    requires FreshSupply(Mem(map[], supply)) && Aligned(q) && Canonical(q)
    requires var sys := Run(Boot(supply), ops); i < |sys.spaces| && j < |sys.spaces|
    ensures
      var sys := Run(Boot(supply), ops);
      var (st, sys') := Step(sys, MapInto(i, va, pa, length, flags));
      var mapped := MappedBytes(sys.mem, sys.spaces[i], va, pa, length, flags);
      var inside := va <= q < va + mapped;
      && (st == Ok ==> mapped == length)
      && (i == j && inside ==>
            Lookup(sys'.mem, sys'.spaces[j], q)
            == Found(Ok, pa + (q - va), Flags(true, flags.write, flags.exec, flags.user, false)))
      && (!inside || (i != j && va < USER_LIMIT) ==>
            Lookup(sys'.mem, sys'.spaces[j], q) == Lookup(sys.mem, sys.spaces[j], q))
  {
    var places := ReachKeeps(supply, ops);
    var sys := Run(Boot(supply), ops);
    MapExact(sys.mem, places, sys.spaces[i], va, pa, length, flags, q);
    if i != j {
      MapIsolated(sys.mem, places, sys.spaces[i], va, pa, length, flags, sys.spaces[j], q);
    }
  }

  /** Creating a space changes no lookup in any space that exists, and the new one shows exactly the
      upper half of its template. */
  lemma ReachableCreateIsolated(supply: seq<Allocation>, ops: seq<Op>, template: Option<nat>, q: u64)
    requires FreshSupply(Mem(map[], supply)) && Aligned(q) && Canonical(q)
    ensures
      var sys := Run(Boot(supply), ops);
      var (st, sys') := Step(sys, Create(template));
      var n := |sys.spaces|;
      && (forall j | 0 <= j < n ::
            j < |sys'.spaces| && Lookup(sys'.mem, sys'.spaces[j], q) == Lookup(sys.mem, sys.spaces[j], q))
      && (st == Ok ==>
            && |sys'.spaces| == n + 1
            && Lookup(sys'.mem, sys'.spaces[n], q) ==
                 if template.Some? && template.value < n && q >= USER_LIMIT
                 then Lookup(sys.mem, sys.spaces[template.value], q) else Found(NotFound, 0, NO_FLAGS))
  {
    var places := ReachKeeps(supply, ops);
    var sys := Run(Boot(supply), ops);
    var places' := CreateStepKeeps(sys, places, template);
    var (st, sys') := Step(sys, Create(template));
    var from := if template.Some? && template.value < |sys.spaces|
                then Some(sys.spaces[template.value].root) else None;
    var n, path := |sys.spaces|, Path(q / PAGE_SIZE);
    hide Run, Lookup, Seen, Good, Descend;
    forall j | 0 <= j < n
      ensures j < |sys'.spaces| && Lookup(sys'.mem, sys'.spaces[j], q) == Lookup(sys.mem, sys.spaces[j], q)
    {
      CreateSeen(sys.mem, places, from, sys.spaces[j].root, path);
      SpaceShows(sys, places, j, q);
      SpaceShows(sys', places', j, q);
    }
    if st == Ok {
      NewRootSeen(sys.mem, places, from, path);
      SpaceShows(sys', places', n, q);
      if from.Some? {
        SpaceShows(sys, places, template.value, q);
      }
      CanonicalAddressPage(q);
      PathRebuilds(q / PAGE_SIZE);
    }
  }

  /** A lookup in a space shows its flat map. */
  lemma SpaceShows(sys: System, places: map<Frame, Place>, j: nat, q: u64)
    requires SysInv(sys, places) && j < |sys.spaces| && Aligned(q) && Canonical(q)
    ensures Lookup(sys.mem, sys.spaces[j], q) ==
              match Seen(sys.mem, sys.spaces[j].root, Path(q / PAGE_SIZE))
              case None => Found(NotFound, 0, NO_FLAGS)
              case Some(e) => Found(Ok, e.frame * PAGE_SIZE, ShownFlags(e))
  {
    LookupIsSeen(sys.mem, places, sys.spaces[j], q);
  }

  /** An upper-half slot present in the template when a space is created resolves identically in
      both for ever after. */
  lemma SharedForever(supply: seq<Allocation>, before: seq<Op>, t: nat, after: seq<Op>, q: u64)
    requires FreshSupply(Mem(map[], supply)) && Aligned(q) && Canonical(q)
    requires
      var sys := Run(Boot(supply), before);
      && t < |sys.spaces| && Step(sys, Create(Some(t))).0 == Ok
      && q >= USER_LIMIT && Read(sys.mem, sys.spaces[t].root, Path(q / PAGE_SIZE)[0]).present
    ensures
      var sys := Run(Boot(supply), before);
      var sys' := Run(Step(sys, Create(Some(t))).1, after);
      && |sys.spaces| < |sys'.spaces|
      && Lookup(sys'.mem, sys'.spaces[t], q) == Lookup(sys'.mem, sys'.spaces[|sys.spaces|], q)
  {
    hide Run, Lookup, Good, Step, Path, Canonical, Validate;
    var places := ReachKeeps(supply, before);
    var sys := Run(Boot(supply), before);
    var n := |sys.spaces|;
    var places1 := CreateStepKeeps(sys, places, Some(t));
    var sys1 := Step(sys, Create(Some(t))).1;
    CanonicalAddressPage(q);
    PathRebuilds(q / PAGE_SIZE);
    SharedSlot(sys, places, t, Path(q / PAGE_SIZE)[0]);
    var places' := RunKeeps(sys1, places1, after);
    var sys' := Run(sys1, after);
    GoodIsInv(sys1.mem, places1);
    GoodIsInv(sys'.mem, places');
    SharedLinkSharesMap(sys1.mem, sys'.mem, sys1.spaces[t].root, sys1.spaces[n].root, Path(q / PAGE_SIZE));
    LookupIsSeen(sys'.mem, places', sys'.spaces[t], q);
    LookupIsSeen(sys'.mem, places', sys'.spaces[n], q);
  }

  /** A new space starts with the same upper-half links as its template. */
  lemma SharedSlot(sys: System, places: map<Frame, Place>, t: nat, i: nat)
    requires SysInv(sys, places) && t < |sys.spaces| && Step(sys, Create(Some(t))).0 == Ok && 256 <= i < FAN
    ensures
      var sys1 := Step(sys, Create(Some(t))).1;
      var n := |sys.spaces|;
      && |sys1.spaces| == n + 1
      && Read(sys1.mem, sys1.spaces[n].root, i) == Read(sys.mem, sys.spaces[t].root, i)
      && Read(sys1.mem, sys1.spaces[t].root, i) == Read(sys.mem, sys.spaces[t].root, i)
  {
    CreateKeeps(sys.mem, places, Some(sys.spaces[t].root));
  }

  /** In every reachable system the user range check is exact, and every space validates. */
  lemma ReachableChecksExact(supply: seq<Allocation>, ops: seq<Op>, i: nat, va: u64, length: u64, write: bool,
                             execute: bool)
    requires FreshSupply(Mem(map[], supply)) && i < |Run(Boot(supply), ops).spaces|
    ensures
      var sys := Run(Boot(supply), ops);
      var space := sys.spaces[i];
      && Validate(space) == Ok
      && (UserRangeOk(sys.mem, space, va, length, write, execute) == Ok <==>
            && length > 0 && va + length <= USER_LIMIT
            && forall k: nat | va - PAGE_SIZE < k * PAGE_SIZE < va + length ::
                 UserPage(sys.mem, space, k * PAGE_SIZE, write, execute))
  {
    var places := ReachKeeps(supply, ops);
    var sys := Run(Boot(supply), ops);
    UserRangeExact(sys.mem, places, sys.spaces[i], va, length, write, execute);
  }

  /** In every reachable system no page is shown both writable and executable, and a user page is
      reached by the walk that asks for USER at all four levels. */
  lemma ReachablePagesSafe(supply: seq<Allocation>, ops: seq<Op>, i: nat, q: u64)
    requires FreshSupply(Mem(map[], supply)) && i < |Run(Boot(supply), ops).spaces|
    requires Aligned(q) && Canonical(q)
    ensures
      var sys := Run(Boot(supply), ops);
      var f := Lookup(sys.mem, sys.spaces[i], q);
      && !(f.flags.write && f.flags.exec)
      && (f.status == Ok && f.flags.user ==>
            Descend(sys.mem, sys.spaces[i].root, Path(q / PAGE_SIZE), true).Reached?)
  {
    var places := ReachKeeps(supply, ops);
    var sys := Run(Boot(supply), ops);
    LookupIsSeen(sys.mem, places, sys.spaces[i], q);
    SeenIsWriteXorExecute(sys.mem, places, sys.spaces[i].root, Path(q / PAGE_SIZE));
    UserWalkExact(sys.mem, places, sys.spaces[i].root, Path(q / PAGE_SIZE));
  }
}
