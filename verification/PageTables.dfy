/** Four-level page tables in physical memory (Intel SDM Vol. 3A, section 4.5), as values.  Tables
    point at one another by physical frame, spaces may share subtrees, and the whole is shown to
    behave as one flat map from pages to entries per root. */
module PageTables {
  import opened Words

  const FAN: nat := 512

  type Frame = nat

  /** The fields of a page-table entry that the kernel reads or writes. */
  datatype Pte = Pte(present: bool, writable: bool, user: bool, noExecute: bool, large: bool, frame: Frame)

  const EMPTY: Pte := Pte(false, false, false, false, false, 0)

  type Table = t: seq<Pte> | |t| == FAN witness seq(FAN, _ => EMPTY)

  datatype Status = Ok | Inval | Fault | NoMemory | Denied | Busy | NotFound

  /** One answer of the page allocator behind an address space. */
  datatype Allocation = Page(frame: Frame) | Unusable | Failed(status: Status)

  /** Physical memory as far as it holds page tables, and the allocator's answers to come. */
  datatype Mem = Mem(tables: map<Frame, Table>, supply: seq<Allocation>)

  function Read(mem: Mem, f: Frame, i: nat): Pte {
    if f in mem.tables && i < FAN then mem.tables[f][i] else EMPTY
  }

  function Write(mem: Mem, f: Frame, i: nat, e: Pte): Mem {
    if f in mem.tables && i < FAN then Mem(mem.tables[f := mem.tables[f][i := e]], mem.supply) else mem
  }

  // --- walking ---

  datatype Outcome = Reached(table: Frame, index: nat) | Stopped(status: Status)

  /** The hardware-shaped walk from table `f` along `path`, one index per level. */
  function Descend(mem: Mem, f: Frame, path: seq<nat>, user: bool): Outcome
    requires |path| > 0
    decreases |path|
  {
    if |path| == 1 then Reached(f, path[0])
    else
      var e := Read(mem, f, path[0]);
      if !e.present then Stopped(NotFound)
      else if |path| < 4 && e.large then Stopped(Inval)
      else if user && !e.user then Stopped(Denied)
      else Descend(mem, e.frame, path[1..], user)
  }

  /** The leaf cell at the end of `path`, if every link on the way is present. */
  function Cell(mem: Mem, f: Frame, path: seq<nat>): Option<(Frame, nat)>
    requires |path| > 0
    decreases |path|
  {
    if |path| == 1 then Some((f, path[0]))
    else
      var e := Read(mem, f, path[0]);
      if e.present then Cell(mem, e.frame, path[1..]) else None
  }

  /** What the flat map of table `f` holds at `path`. */
  function Seen(mem: Mem, f: Frame, path: seq<nat>): Option<Pte>
    requires |path| > 0
  {
    var c := Cell(mem, f, path);
    if c.Some? && Read(mem, c.value.0, c.value.1).present then Some(Read(mem, c.value.0, c.value.1)) else None
  }

  // --- building ---

  function Take(mem: Mem): (Allocation, Mem) {
    if mem.supply == [] then (Failed(NoMemory), mem)
    else (mem.supply[0], Mem(mem.tables, mem.supply[1..]))
  }

  /** A zeroed table from the allocator. */
  function AllocTable(mem: Mem): (Status, Mem, Frame) {
    var (a, mem') := Take(mem);
    match a
    case Failed(st) => (if st == Ok then Fault else st, mem', 0)
    case Unusable => (Fault, mem', 0)
    case Page(g) => (Ok, Mem(mem'.tables[g := seq(FAN, _ => EMPTY)], mem'.supply), g)
  }

  function LinkPte(g: Frame, user: bool): Pte { Pte(true, true, user, false, false, g) }

  function ChildTable(mem: Mem, f: Frame, i: nat, user: bool): (Status, Mem, Frame) {
    var e := Read(mem, f, i);
    if e.present then
      if user && !e.user then (Denied, mem, 0) else (Ok, mem, e.frame)
    else
      var (st, mem', g) := AllocTable(mem);
      if st != Ok then (st, mem', 0) else (Ok, Write(mem', f, i, LinkPte(g, user)), g)
  }

  /** Map one page: create what is missing on the way, then fill the leaf unless it is taken. */
  function Install(mem: Mem, f: Frame, path: seq<nat>, user: bool, leaf: Pte): (Status, Mem)
    requires |path| > 0
    decreases |path|
  {
    if |path| == 1 then
      if Read(mem, f, path[0]).present then (Busy, mem) else (Ok, Write(mem, f, path[0], leaf))
    else
      var (st, mem', g) := ChildTable(mem, f, path[0], user);
      if st != Ok then (st, mem') else Install(mem', g, path[1..], user, leaf)
  }

  // --- the invariant: where each table hangs ---

  /** A table's place: the indices that lead to it, the root it belongs to when that is in the
      lower half, and whether the links to it carry USER. */
  datatype Place = Place(path: seq<nat>, home: Option<Frame>, user: bool)

  function RootPlace(f: Frame): Place { Place([], Some(f), true) }

  function ChildPlace(p: Place, i: nat, user: bool): Place {
    Place(p.path + [i], if (p.path + [i])[0] < 256 then p.home else None, user)
  }

  ghost predicate CellOk(mem: Mem, places: map<Frame, Place>, f: Frame, i: nat)
    requires f in places
  {
    var e := Read(mem, f, i);
    e.present ==>
      && !e.large
      && (e.user ==> places[f].user)
      && (if |places[f].path| < 3
          then e.frame in places && places[e.frame] == ChildPlace(places[f], i, e.user)
          else !(e.writable && !e.noExecute))
  }

  ghost predicate Inv(mem: Mem, places: map<Frame, Place>) {
    && places.Keys == mem.tables.Keys
    && (forall f | f in places :: |places[f].path| <= 3)
    && (forall f | f in places && places[f].path == [] :: places[f] == RootPlace(f))
    && (forall f, i: nat | f in places && i < FAN :: CellOk(mem, places, f, i))
  }

  /** Whatever the allocator will still hand out is new, and no frame comes twice. */
  ghost predicate FreshSupply(mem: Mem) {
    && (forall k | 0 <= k < |mem.supply| && mem.supply[k].Page? :: mem.supply[k].frame !in mem.tables)
    && (forall j, k | 0 <= j < k < |mem.supply| && mem.supply[j].Page? && mem.supply[k].Page? ::
          mem.supply[j].frame != mem.supply[k].frame)
  }

  ghost predicate Good(mem: Mem, places: map<Frame, Place>) { Inv(mem, places) && FreshSupply(mem) }

  /** Memory only ever gains entries: nothing present is changed. */
  ghost predicate Grown(mem: Mem, later: Mem) {
    && mem.tables.Keys <= later.tables.Keys
    && (forall f, i: nat | f in mem.tables && i < FAN && Read(mem, f, i).present ::
          Read(later, f, i) == Read(mem, f, i))
  }

  ghost predicate PlacesGrown(p: map<Frame, Place>, q: map<Frame, Place>) {
    forall f | f in p :: f in q && q[f] == p[f]
  }

  /** `path` completes the place of `f` to a full four-level path. */
  ghost predicate Full(places: map<Frame, Place>, f: Frame, path: seq<nat>) {
    && f in places && |path| > 0 && |places[f].path| + |path| == 4
    && forall k | 0 <= k < |path| :: path[k] < FAN
  }

  lemma {:induction false} CellPlace(mem: Mem, places: map<Frame, Place>, f: Frame, path: seq<nat>)
    requires Inv(mem, places) && Full(places, f, path)
    ensures Cell(mem, f, path).Some? ==>
              var (t, i) := Cell(mem, f, path).value;
              && t in places && i < FAN && |places[t].path| == 3
              && places[t].path + [i] == places[f].path + path
              && ((places[f].path + path)[0] < 256 ==> places[t].home == places[f].home)
    decreases |path|
  {
    if |path| > 1 && Read(mem, f, path[0]).present {
      assert CellOk(mem, places, f, path[0]);
      var g := Read(mem, f, path[0]).frame;
      assert places[g].path + path[1..] == places[f].path + path;
      CellPlace(mem, places, g, path[1..]);
    }
  }

  // --- linking a fresh table changes no flat map ---

  ghost predicate FreshLink(mem: Mem, places: map<Frame, Place>, f: Frame, i: nat, g: Frame) {
    f in places && |places[f].path| < 3 && i < FAN && !Read(mem, f, i).present && g !in mem.tables
  }

  function Linked(mem: Mem, f: Frame, i: nat, g: Frame, user: bool): Mem {
    Write(Mem(mem.tables[g := seq(FAN, _ => EMPTY)], mem.supply), f, i, LinkPte(g, user))
  }

  lemma LinkKeepsInv(mem: Mem, places: map<Frame, Place>, f: Frame, i: nat, g: Frame, user: bool)
    requires Inv(mem, places) && FreshLink(mem, places, f, i, g) && (user ==> places[f].user)
    ensures Inv(Linked(mem, f, i, g, user), places[g := ChildPlace(places[f], i, user)])
    ensures Grown(mem, Linked(mem, f, i, g, user))
  {
    var mem', places' := Linked(mem, f, i, g, user), places[g := ChildPlace(places[f], i, user)];
    forall h, k: nat | h in places' && k < FAN ensures CellOk(mem', places', h, k) {
      if h != g { assert CellOk(mem, places, h, k); }
    }
  }

  lemma {:induction false} LinkKeepsSeen(mem: Mem, places: map<Frame, Place>, f: Frame, i: nat, g: Frame,
                                         user: bool, h: Frame, q: seq<nat>)
    requires Inv(mem, places) && FreshLink(mem, places, f, i, g) && Full(places, h, q)
    ensures Seen(Linked(mem, f, i, g, user), h, q) == Seen(mem, h, q)
    ensures Cell(mem, h, q).Some? ==> Cell(Linked(mem, f, i, g, user), h, q) == Cell(mem, h, q)
    decreases |q|
  {
    var mem' := Linked(mem, f, i, g, user);
    if |q| > 1 {
      assert CellOk(mem, places, h, q[0]);
      if (h, q[0]) == (f, i) {
        assert Read(mem', h, q[0]) == LinkPte(g, user);
        assert Read(mem', g, q[1..][0]) == EMPTY;
        assert Seen(mem', h, q) == Seen(mem', g, q[1..]);
      } else if Read(mem, h, q[0]).present {
        LinkKeepsSeen(mem, places, f, i, g, user, Read(mem, h, q[0]).frame, q[1..]);
      }
    }
  }

  // --- filling a leaf changes exactly that leaf ---

  ghost predicate FreeLeaf(mem: Mem, places: map<Frame, Place>, t: Frame, i: nat, leaf: Pte) {
    && t in places && |places[t].path| == 3 && i < FAN && !Read(mem, t, i).present
    && leaf.present && !leaf.large && !(leaf.writable && !leaf.noExecute) && (leaf.user ==> places[t].user)
  }

  lemma FillKeepsInv(mem: Mem, places: map<Frame, Place>, t: Frame, i: nat, leaf: Pte)
    requires Inv(mem, places) && FreeLeaf(mem, places, t, i, leaf)
    ensures Inv(Write(mem, t, i, leaf), places) && Grown(mem, Write(mem, t, i, leaf))
  {
    var mem' := Write(mem, t, i, leaf);
    forall h, k: nat | h in places && k < FAN ensures CellOk(mem', places, h, k) {
      assert CellOk(mem, places, h, k);
    }
  }

  lemma {:induction false} FillSeen(mem: Mem, places: map<Frame, Place>, t: Frame, i: nat, leaf: Pte,
                                    h: Frame, q: seq<nat>)
    requires Inv(mem, places) && FreeLeaf(mem, places, t, i, leaf) && Full(places, h, q)
    ensures Cell(Write(mem, t, i, leaf), h, q) == Cell(mem, h, q)
    ensures Seen(Write(mem, t, i, leaf), h, q) ==
              if Cell(mem, h, q) == Some((t, i)) then Some(leaf) else Seen(mem, h, q)
    decreases |q|
  {
    if |q| > 1 && Read(mem, h, q[0]).present {
      assert CellOk(mem, places, h, q[0]);
      FillSeen(mem, places, t, i, leaf, Read(mem, h, q[0]).frame, q[1..]);
    }
  }

  // --- installing one page ---

  lemma AllocKeeps(mem: Mem, places: map<Frame, Place>)
    requires Good(mem, places)
    ensures
      var (st, mem', g) := AllocTable(mem);
      if st == Ok
      then
        && g !in mem.tables && mem'.tables == mem.tables[g := seq(FAN, _ => EMPTY)]
        && FreshSupply(mem')
      else Good(mem', places) && mem'.tables == mem.tables
  {
    var (a, mem') := Take(mem);
    assert Inv(mem', places) by {
      forall f, i: nat | f in places && i < FAN ensures CellOk(mem', places, f, i) {
        assert CellOk(mem, places, f, i);
      }
    }
  }

  lemma SeenIgnoresSupply(mem: Mem, mem': Mem, f: Frame, path: seq<nat>)
    requires |path| > 0 && mem.tables == mem'.tables
    ensures Cell(mem, f, path) == Cell(mem', f, path) && Seen(mem, f, path) == Seen(mem', f, path)
    decreases |path|
  {
    if |path| > 1 && Read(mem, f, path[0]).present {
      SeenIgnoresSupply(mem, mem', Read(mem, f, path[0]).frame, path[1..]);
    }
  }

  /** The places after ChildTable. */
  ghost function ChildPlaces(mem: Mem, places: map<Frame, Place>, f: Frame, i: nat, user: bool): map<Frame, Place>
    requires f in places
  {
    if Read(mem, f, i).present || AllocTable(mem).0 != Ok then places
    else places[AllocTable(mem).2 := ChildPlace(places[f], i, user)]
  }

  lemma ChildKeeps(mem: Mem, places: map<Frame, Place>, f: Frame, i: nat, user: bool)
    requires Good(mem, places) && f in places && |places[f].path| < 3 && i < FAN
    requires user ==> places[f].user
    ensures
      var (st, mem', g) := ChildTable(mem, f, i, user);
      var places' := ChildPlaces(mem, places, f, i, user);
      && Good(mem', places') && PlacesGrown(places, places') && Grown(mem, mem')
      && (st == Ok ==>
            && g in places' && places'[g].path == places[f].path + [i] && (user ==> places'[g].user)
            && Read(mem', f, i).present && Read(mem', f, i).frame == g)
      && (st != Ok ==> places' == places)
  {
    assert CellOk(mem, places, f, i);
    if !Read(mem, f, i).present {
      AllocKeeps(mem, places);
      var (st, mem', g) := AllocTable(mem);
      if st == Ok {
        LinkKeepsInv(mem, places, f, i, g, user);
        var linked := Write(mem', f, i, LinkPte(g, user));
        assert linked.tables == Linked(mem, f, i, g, user).tables;
        InvIgnoresSupply(Linked(mem, f, i, g, user), linked, places[g := ChildPlace(places[f], i, user)]);
      }
    }
  }

  lemma InvIgnoresSupply(mem: Mem, mem': Mem, places: map<Frame, Place>)
    requires Inv(mem, places) && mem.tables == mem'.tables
    ensures Inv(mem', places)
  {
    forall f, i: nat | f in places && i < FAN ensures CellOk(mem', places, f, i) {
      assert CellOk(mem, places, f, i);
    }
  }

  lemma ChildSeen(mem: Mem, places: map<Frame, Place>, f: Frame, i: nat, user: bool, h: Frame, q: seq<nat>)
    requires Good(mem, places) && f in places && |places[f].path| < 3 && i < FAN
    requires Full(places, h, q)
    ensures
      var mem' := ChildTable(mem, f, i, user).1;
      && Seen(mem', h, q) == Seen(mem, h, q)
      && (Cell(mem, h, q).Some? ==> Cell(mem', h, q) == Cell(mem, h, q))
  {
    if !Read(mem, f, i).present {
      AllocKeeps(mem, places);
      var (st, mem', g) := AllocTable(mem);
      if st == Ok {
        LinkKeepsSeen(mem, places, f, i, g, user, h, q);
        SeenIgnoresSupply(Write(mem', f, i, LinkPte(g, user)), Linked(mem, f, i, g, user), h, q);
      } else {
        SeenIgnoresSupply(mem, mem', h, q);
      }
    }
  }

  /** A leaf the kernel may install: present, 4 KiB, never writable and executable at once. */
  predicate LeafOk(leaf: Pte, user: bool) {
    leaf.present && !leaf.large && !(leaf.writable && !leaf.noExecute) && (leaf.user ==> user)
  }

  ghost function InstallPlaces(mem: Mem, places: map<Frame, Place>, f: Frame, path: seq<nat>, user: bool)
    : map<Frame, Place>
    requires |path| > 0 && f in places
    decreases |path|
  {
    if |path| == 1 then places
    else
      var (st, mem', g) := ChildTable(mem, f, path[0], user);
      var places' := ChildPlaces(mem, places, f, path[0], user);
      if st != Ok || g !in places' then places' else InstallPlaces(mem', places', g, path[1..], user)
  }

  lemma {:induction false} InstallKeeps(mem: Mem, places: map<Frame, Place>, f: Frame, path: seq<nat>, user: bool,
                                        leaf: Pte)
    requires Good(mem, places) && Full(places, f, path) && LeafOk(leaf, user) && (user ==> places[f].user)
    ensures
      var mem' := Install(mem, f, path, user, leaf).1;
      var places' := InstallPlaces(mem, places, f, path, user);
      Good(mem', places') && PlacesGrown(places, places') && Grown(mem, mem')
    decreases |path|
  {
    if |path| == 1 {
      if !Read(mem, f, path[0]).present {
        FillKeepsInv(mem, places, f, path[0], leaf);
      }
    } else {
      ChildKeeps(mem, places, f, path[0], user);
      var (st, mem1, g) := ChildTable(mem, f, path[0], user);
      if st == Ok {
        var places1 := ChildPlaces(mem, places, f, path[0], user);
        InstallKeeps(mem1, places1, g, path[1..], user, leaf);
      }
    }
  }

  /** What installing a page does to any flat map: the leaf appears where the walk ends in the
      very cell just filled, and nowhere else. */
  lemma {:induction false} InstallSeen(mem: Mem, places: map<Frame, Place>, f: Frame, path: seq<nat>, user: bool,
                                       leaf: Pte, h: Frame, q: seq<nat>)
    requires Good(mem, places) && Full(places, f, path) && LeafOk(leaf, user) && (user ==> places[f].user)
    requires Full(places, h, q)
    ensures
      var (st, mem') := Install(mem, f, path, user, leaf);
      && (Cell(mem, h, q).Some? ==> Cell(mem', h, q) == Cell(mem, h, q))
      && (st == Ok ==> Cell(mem', f, path).Some? && Seen(mem, f, path) == None)
      && Seen(mem', h, q) ==
           (if st == Ok && Cell(mem', h, q) == Cell(mem', f, path) then Some(leaf) else Seen(mem, h, q))
    decreases |path|
  {
    if |path| == 1 {
      if !Read(mem, f, path[0]).present {
        FillSeen(mem, places, f, path[0], leaf, h, q);
        FillSeen(mem, places, f, path[0], leaf, f, path);
      }
    } else {
      ChildKeeps(mem, places, f, path[0], user);
      ChildSeen(mem, places, f, path[0], user, h, q);
      ChildSeen(mem, places, f, path[0], user, f, path);
      var (st, mem1, g) := ChildTable(mem, f, path[0], user);
      if st == Ok {
        var places1 := ChildPlaces(mem, places, f, path[0], user);
        InstallSeen(mem1, places1, g, path[1..], user, leaf, h, q);
        InstallKeeps(mem1, places1, g, path[1..], user, leaf);
      }
    }
  }

  /** When the walk needs no new table its outcome decides the answer. */
  lemma {:induction false} InstallOutcome(mem: Mem, places: map<Frame, Place>, f: Frame, path: seq<nat>, user: bool,
                                          leaf: Pte)
    requires Inv(mem, places) && Full(places, f, path)
    ensures
      var st := Install(mem, f, path, user, leaf).0;
      var d := Descend(mem, f, path, user);
      && (d.Reached? ==> st == if Read(mem, d.table, d.index).present then Busy else Ok)
      && (d == Stopped(Denied) ==> st == Denied)
    decreases |path|
  {
    if |path| > 1 && Read(mem, f, path[0]).present {
      assert CellOk(mem, places, f, path[0]);
      InstallOutcome(mem, places, Read(mem, f, path[0]).frame, path[1..], user, leaf);
    }
  }

  // --- walks against the flat map ---

  /** The kernel walk (no USER check) finds exactly the flat map's cell. */
  lemma {:induction false} DescendIsCell(mem: Mem, places: map<Frame, Place>, f: Frame, path: seq<nat>)
    requires Inv(mem, places) && Full(places, f, path)
    ensures Descend(mem, f, path, false) ==
              match Cell(mem, f, path)
              case None => Stopped(NotFound)
              case Some(c) => Reached(c.0, c.1)
    decreases |path|
  {
    if |path| > 1 && Read(mem, f, path[0]).present {
      assert CellOk(mem, places, f, path[0]);
      DescendIsCell(mem, places, Read(mem, f, path[0]).frame, path[1..]);
    }
  }

  /** A USER leaf has USER on every link above it, so the checked walk reaches it; and a checked
      walk reaches nothing the flat map does not hold. */
  lemma {:induction false} UserWalkExact(mem: Mem, places: map<Frame, Place>, f: Frame, path: seq<nat>)
    requires Inv(mem, places) && Full(places, f, path)
    ensures
      var d := Descend(mem, f, path, true);
      var seen := Seen(mem, f, path);
      && (d.Reached? && Read(mem, d.table, d.index).present && Read(mem, d.table, d.index).user
          <==> seen.Some? && seen.value.user)
      && (d.Reached? && Read(mem, d.table, d.index).present ==> seen == Some(Read(mem, d.table, d.index)))
      && (seen.Some? && seen.value.user ==> places[f].user)
    decreases |path|
  {
    assert CellOk(mem, places, f, path[0]);
    if |path| > 1 && Read(mem, f, path[0]).present {
      UserWalkExact(mem, places, Read(mem, f, path[0]).frame, path[1..]);
    }
  }

  /** No flat map ever shows a page both writable and executable, nor a large page. */
  lemma SeenIsWriteXorExecute(mem: Mem, places: map<Frame, Place>, f: Frame, path: seq<nat>)
    requires Inv(mem, places) && Full(places, f, path)
    ensures Seen(mem, f, path).Some? ==>
              var e := Seen(mem, f, path).value;
              e.present && !e.large && !(e.writable && !e.noExecute)
  {
    CellPlace(mem, places, f, path);
    if Cell(mem, f, path).Some? {
      var (t, i) := Cell(mem, f, path).value;
      assert CellOk(mem, places, t, i);
    }
  }

  /** Two tables whose entry `i` is the same present link show the same flat map below it. */
  lemma SharedLinkSharesMap(mem: Mem, later: Mem, f: Frame, g: Frame, path: seq<nat>)
    requires |path| > 1 && path[0] < FAN && f in mem.tables && g in mem.tables && Grown(mem, later)
    requires Read(mem, f, path[0]).present && Read(mem, f, path[0]) == Read(mem, g, path[0])
    ensures Cell(later, f, path) == Cell(later, g, path) && Seen(later, f, path) == Seen(later, g, path)
  {
    assert Read(later, f, path[0]) == Read(mem, f, path[0]);
    assert Read(later, g, path[0]) == Read(mem, g, path[0]);
  }
}
