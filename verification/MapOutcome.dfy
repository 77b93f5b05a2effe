/** Exactly when a map call succeeds: its range is acceptable, its pages are free, no link on the
    way lacks USER when USER is asked, and the allocator can supply the tables that are missing. */
module MapOutcome {
  import opened Words
  import opened PageTables
  import opened AddressSpaces

  // --- one page ---

  /** The table that `r` leads to from table `f`, if every link on the way is present. */
  function TableAt(mem: Mem, f: Frame, r: seq<nat>): Option<Frame>
    decreases |r|
  {
    if r == [] then Some(f)
    else
      var e := Read(mem, f, r[0]);
      if e.present then TableAt(mem, e.frame, r[1..]) else None
  }

  /** A present link on the way to the leaf lacks USER. */
  predicate Barred(mem: Mem, f: Frame, path: seq<nat>)
    decreases |path|
  {
    |path| > 1 &&
    var e := Read(mem, f, path[0]);
    e.present && (!e.user || Barred(mem, e.frame, path[1..]))
  }

  /** How many tables are missing on the way to the leaf. */
  function Short(mem: Mem, f: Frame, path: seq<nat>): (n: nat)
    requires |path| > 0
    ensures n < |path|
    decreases |path|
  {
    var e := Read(mem, f, path[0]);
    if |path| == 1 then 0 else if e.present then Short(mem, e.frame, path[1..]) else |path| - 1
  }

  /** The next `n` answers of the allocator are all usable pages. */
  predicate Supplies(mem: Mem, n: nat) {
    n <= |mem.supply| && forall k | 0 <= k < n :: mem.supply[k].Page?
  }

  lemma EmptyTable(mem: Mem, g: Frame, path: seq<nat>)
    requires |path| > 0 && forall i: nat | i < FAN :: !Read(mem, g, i).present
    ensures Seen(mem, g, path) == None && !Barred(mem, g, path) && Short(mem, g, path) == |path| - 1
  {
    assert !Read(mem, g, path[0]).present;
  }

  lemma ChildOutcome(mem: Mem, f: Frame, i: nat, user: bool)
    requires f in mem.tables && i < FAN && FreshSupply(mem)
    ensures
      var e := Read(mem, f, i);
      var (st, mem', g) := ChildTable(mem, f, i, user);
      if e.present then st == (if user && !e.user then Denied else Ok) && mem' == mem && (st == Ok ==> g == e.frame)
      else
        && (st == Ok <==> Supplies(mem, 1))
        && (st == Ok ==> mem'.supply == mem.supply[1..] && g !in mem.tables
                         && mem'.tables == Linked(mem, f, i, g, user).tables
                         && forall k: nat | k < FAN :: !Read(mem', g, k).present)
  {
  }

  /** Installing one page succeeds exactly if the page is free, nothing bars the way and the missing
      tables can be had; it takes just those from the allocator. */
  lemma {:induction false} InstallSucceeds(mem: Mem, places: map<Frame, Place>, f: Frame, path: seq<nat>, user: bool,
                                           leaf: Pte)
    requires Good(mem, places) && Full(places, f, path) && (user ==> places[f].user)
    ensures
      var (st, mem') := Install(mem, f, path, user, leaf);
      var n := Short(mem, f, path);
      && (st == Ok <==> Seen(mem, f, path) == None && !(user && Barred(mem, f, path)) && Supplies(mem, n))
      && (st == Ok ==> mem'.supply == mem.supply[n..])
    decreases |path|
  {
    if |path| > 1 {
      ChildOutcome(mem, f, path[0], user);
      ChildKeeps(mem, places, f, path[0], user);
      var (st, mem1, g) := ChildTable(mem, f, path[0], user);
      if st == Ok {
        InstallSucceeds(mem1, ChildPlaces(mem, places, f, path[0], user), g, path[1..], user, leaf);
        if !Read(mem, f, path[0]).present {
          EmptyTable(mem1, g, path[1..]);
          SuppliesAll(mem, mem1, 1, |path| - 2);
        }
      }
    }
  }

  lemma SuppliesAll(mem: Mem, later: Mem, m: nat, n: nat)
    requires Supplies(mem, m) && later.supply == mem.supply[m..]
    ensures Supplies(mem, m + n) <==> Supplies(later, n)
    ensures Supplies(later, n) ==> later.supply[n..] == mem.supply[m + n..]
  {
    forall k | m <= k < m + n && m + n <= |mem.supply| ensures mem.supply[k] == later.supply[k - m] {
    }
  }

  // --- what one page leaves of the others ---

  lemma {:induction false} TablePlace(mem: Mem, places: map<Frame, Place>, h: Frame, r: seq<nat>)
    requires Inv(mem, places) && h in places && |places[h].path| + |r| <= 3 && forall k | 0 <= k < |r| :: r[k] < FAN
    ensures TableAt(mem, h, r).Some? ==>
              TableAt(mem, h, r).value in places && places[TableAt(mem, h, r).value].path == places[h].path + r
    decreases |r|
  {
    if r != [] && Read(mem, h, r[0]).present {
      assert CellOk(mem, places, h, r[0]);
      var g := Read(mem, h, r[0]).frame;
      TablePlace(mem, places, g, r[1..]);
      assert places[g].path + r[1..] == places[h].path + r;
    } else if r == [] {
      assert places[h].path + r == places[h].path;
    }
  }

  lemma {:induction false} TableSnoc(mem: Mem, h: Frame, r: seq<nat>, i: nat)
    ensures TableAt(mem, h, r + [i]) ==
              match TableAt(mem, h, r)
              case None => None
              case Some(f) => if Read(mem, f, i).present then Some(Read(mem, f, i).frame) else None
    decreases |r|
  {
    if r == [] {
      assert (r + [i])[1..] == [];
    } else {
      assert (r + [i])[1..] == r[1..] + [i];
      TableSnoc(mem, Read(mem, h, r[0]).frame, r[1..], i);
    }
  }

  lemma {:induction false} TableIgnoresSupply(mem: Mem, mem': Mem, h: Frame, r: seq<nat>)
    requires mem.tables == mem'.tables
    ensures TableAt(mem, h, r) == TableAt(mem', h, r) && Barred(mem, h, r) == Barred(mem', h, r)
    decreases |r|
  {
    if r != [] && Read(mem, h, r[0]).present {
      TableIgnoresSupply(mem, mem', Read(mem, h, r[0]).frame, r[1..]);
    }
  }

  /** A new link adds one table to the walks from `h`, if it hangs on one of them, and bars none. */
  lemma {:induction false} LinkTables(mem: Mem, places: map<Frame, Place>, f: Frame, i: nat, g: Frame, user: bool,
                                      h: Frame, r: seq<nat>)
    requires Inv(mem, places) && FreshLink(mem, places, f, i, g)
    requires h in places && |places[h].path| + |r| <= 3 && forall k | 0 <= k < |r| :: r[k] < FAN
    ensures TableAt(Linked(mem, f, i, g, user), h, r).Some? <==>
            TableAt(mem, h, r).Some?
            || (r != [] && r[|r| - 1] == i && TableAt(mem, h, r[..|r| - 1]) == Some(f))
    decreases |r|
  {
    var mem' := Linked(mem, f, i, g, user);
    if r != [] {
      assert CellOk(mem, places, h, r[0]);
      if (h, r[0]) == (f, i) {
        assert !Read(mem, h, r[0]).present && Read(mem', h, r[0]) == LinkPte(g, user);
        if |r| > 1 {
          assert !Read(mem', g, r[1..][0]).present;
        }
      } else if Read(mem, h, r[0]).present {
        assert Read(mem', h, r[0]) == Read(mem, h, r[0]);
        LinkTables(mem, places, f, i, g, user, Read(mem, h, r[0]).frame, r[1..]);
        if |r| > 1 {
          assert r[..|r| - 1][1..] == r[1..][..|r| - 2];
        } else {
          assert f != h || i != r[0];
        }
      } else {
        assert Read(mem', h, r[0]) == Read(mem, h, r[0]);
      }
    }
  }

  lemma {:induction false} LinkBars(mem: Mem, places: map<Frame, Place>, f: Frame, i: nat, g: Frame,
                                    h: Frame, q: seq<nat>)
    requires Inv(mem, places) && FreshLink(mem, places, f, i, g) && Full(places, h, q)
    ensures Barred(Linked(mem, f, i, g, true), h, q) <==> Barred(mem, h, q)
    decreases |q|
  {
    var mem' := Linked(mem, f, i, g, true);
    if |q| > 1 {
      assert CellOk(mem, places, h, q[0]);
      if (h, q[0]) == (f, i) {
        assert Read(mem', h, q[0]) == LinkPte(g, true) && !Read(mem', g, q[1..][0]).present;
      } else if Read(mem, h, q[0]).present {
        LinkBars(mem, places, f, i, g, Read(mem, h, q[0]).frame, q[1..]);
      }
    }
  }

  /** Filling a leaf is no link: tables and bars stay as they were. */
  lemma {:induction false} FillTables(mem: Mem, places: map<Frame, Place>, t: Frame, i: nat, leaf: Pte,
                                      h: Frame, q: seq<nat>, k: nat)
    requires Inv(mem, places) && t in places && |places[t].path| == 3 && Full(places, h, q) && k < |q|
    ensures TableAt(Write(mem, t, i, leaf), h, q[..k]) == TableAt(mem, h, q[..k])
    ensures Barred(Write(mem, t, i, leaf), h, q) <==> Barred(mem, h, q)
    decreases |q|
  {
    if |q| > 1 {
      assert Read(Write(mem, t, i, leaf), h, q[0]) == Read(mem, h, q[0]);
      if Read(mem, h, q[0]).present {
        assert CellOk(mem, places, h, q[0]);
        FillTables(mem, places, t, i, leaf, Read(mem, h, q[0]).frame, q[1..], if k == 0 then 0 else k - 1);
        if k > 0 {
          assert q[..k][1..] == q[1..][..k - 1];
        }
      }
    }
  }

  lemma {:induction false} TableGrown(mem: Mem, later: Mem, h: Frame, r: seq<nat>)
    requires Grown(mem, later)
    ensures TableAt(mem, h, r).Some? ==> TableAt(later, h, r) == TableAt(mem, h, r)
    decreases |r|
  {
    if r != [] && Read(mem, h, r[0]).present {
      TableGrown(mem, later, Read(mem, h, r[0]).frame, r[1..]);
    }
  }

  /** `base` leads from the root `h` to the table `f`, and `path` from there to a leaf. */
  ghost predicate Under(mem: Mem, places: map<Frame, Place>, h: Frame, base: seq<nat>, f: Frame, path: seq<nat>) {
    && IsRoot(places, h) && TableAt(mem, h, base) == Some(f) && Full(places, f, path)
    && |base| + |path| == 4 && forall k | 0 <= k < |base| :: base[k] < FAN
  }

  /** Linking a new table below `f` makes exactly one more prefix lead to a table. */
  lemma LinkUnder(mem: Mem, places: map<Frame, Place>, h: Frame, base: seq<nat>, f: Frame, path: seq<nat>, g: Frame,
                  user: bool, r: seq<nat>)
    requires Inv(mem, places) && Under(mem, places, h, base, f, path) && |path| > 1
    requires FreshLink(mem, places, f, path[0], g)
    requires |r| <= 3 && forall k | 0 <= k < |r| :: r[k] < FAN
    ensures TableAt(Linked(mem, f, path[0], g, user), h, r).Some? <==>
            TableAt(mem, h, r).Some? || r == base + [path[0]]
  {
    LinkTables(mem, places, f, path[0], g, user, h, r);
    TablePlace(mem, places, h, base);
    assert [] + base == base;
    if r != [] {
      var up := r[..|r| - 1];
      TablePlace(mem, places, h, up);
      assert [] + up == up && r == up + [r[|r| - 1]];
      assert (base + [path[0]])[..|base|] == base;
    }
  }

  lemma ChildUnder(mem: Mem, places: map<Frame, Place>, h: Frame, base: seq<nat>, f: Frame, path: seq<nat>, user: bool)
    requires Good(mem, places) && Under(mem, places, h, base, f, path) && |path| > 1 && (user ==> places[f].user)
    requires ChildTable(mem, f, path[0], user).0 == Ok
    ensures
      var (_, mem1, g) := ChildTable(mem, f, path[0], user);
      var places1 := ChildPlaces(mem, places, f, path[0], user);
      && Good(mem1, places1) && Under(mem1, places1, h, base + [path[0]], g, path[1..])
      && PlacesGrown(places, places1) && (user ==> places1[g].user)
  {
    ChildKeeps(mem, places, f, path[0], user);
    var mem1 := ChildTable(mem, f, path[0], user).1;
    TableGrown(mem, mem1, h, base);
    TableSnoc(mem1, h, base, path[0]);
  }

  /** Going one level down, a prefix leads to a table afterwards if it did before or is the one that
      was gone down; with USER no way gets barred or cleared. */
  lemma ChildTables(mem: Mem, places: map<Frame, Place>, h: Frame, base: seq<nat>, f: Frame, path: seq<nat>,
                    user: bool, q: seq<nat>, k: nat)
    requires Good(mem, places) && Under(mem, places, h, base, f, path) && |path| > 1
    requires ChildTable(mem, f, path[0], user).0 == Ok && Full(places, h, q) && k < 4
    ensures
      var mem1 := ChildTable(mem, f, path[0], user).1;
      && (TableAt(mem1, h, q[..k]).Some? <==> TableAt(mem, h, q[..k]).Some? || q[..k] == base + [path[0]])
      && (user ==> (Barred(mem1, h, q) <==> Barred(mem, h, q)))
  {
    TableSnoc(mem, h, base, path[0]);
    if !Read(mem, f, path[0]).present {
      ChildOutcome(mem, f, path[0], user);
      var (_, mem1, g) := ChildTable(mem, f, path[0], user);
      LinkUnder(mem, places, h, base, f, path, g, user, q[..k]);
      TableIgnoresSupply(mem1, Linked(mem, f, path[0], g, user), h, q[..k]);
      TableIgnoresSupply(mem1, Linked(mem, f, path[0], g, user), h, q);
      if user {
        LinkBars(mem, places, f, path[0], g, h, q);
      }
    }
  }

  lemma PrefixStep(base: seq<nat>, path: seq<nat>, q: seq<nat>, k: nat)
    requires |path| > 1 && k <= |q| && k <= |base| + |path|
    ensures base + [path[0]] + path[1..] == base + path
    ensures |base| < k && q[..k] == (base + path)[..k] <==>
            q[..k] == base + [path[0]] || (|base| + 1 < k && q[..k] == (base + path)[..k])
  {
    assert (base + path)[..|base| + 1] == base + [path[0]];
  }

  /** After a page is installed a prefix leads to a table if it did before or is a prefix of the
      page's own path. */
  lemma {:induction false} InstallTables(mem: Mem, places: map<Frame, Place>, h: Frame, base: seq<nat>, f: Frame,
                                         path: seq<nat>, user: bool, leaf: Pte, q: seq<nat>, k: nat)
    requires Good(mem, places) && Under(mem, places, h, base, f, path) && (user ==> places[f].user)
    requires Install(mem, f, path, user, leaf).0 == Ok && Full(places, h, q) && k < 4
    ensures
      var mem' := Install(mem, f, path, user, leaf).1;
      && (TableAt(mem', h, q[..k]).Some? <==>
          TableAt(mem, h, q[..k]).Some? || (|base| < k && q[..k] == (base + path)[..k]))
      && (user ==> (Barred(mem', h, q) <==> Barred(mem, h, q)))
    decreases |path|
  {
    if |path| == 1 {
      FillTables(mem, places, f, path[0], leaf, h, q, k);
    } else {
      hide Good, TableAt, Barred, ChildTable, ChildPlaces, IsRoot;
      ChildUnder(mem, places, h, base, f, path, user);
      ChildTables(mem, places, h, base, f, path, user, q, k);
      var (_, mem1, g) := ChildTable(mem, f, path[0], user);
      var places1 := ChildPlaces(mem, places, f, path[0], user);
      InstallTables(mem1, places1, h, base + [path[0]], g, path[1..], user, leaf, q, k);
      PrefixStep(base, path, q, k);
    }
  }

  // --- a run of pages ---

  /** The missing tables on the way to the pages of a run, each by the indices that lead to it. */
  ghost function Missing(mem: Mem, root: Frame, page: nat, pages: nat): set<seq<nat>> {
    set q: nat, k: nat | page <= q < page + pages && 1 <= k <= 3 && TableAt(mem, root, Path(q)[..k]).None?
      :: Path(q)[..k]
  }

  /** The pages can be mapped: free, not barred, and the missing tables can be had. */
  ghost predicate Mappable(mem: Mem, root: Frame, page: nat, pages: nat, user: bool) {
    && (forall q | page <= q < page + pages ::
          Seen(mem, root, Path(q)) == None && !(user && Barred(mem, root, Path(q))))
    && Supplies(mem, |Missing(mem, root, page, pages)|)
  }

  lemma {:induction false} ShortIs(mem: Mem, f: Frame, path: seq<nat>, k: nat)
    requires 1 <= k < |path|
    ensures TableAt(mem, f, path[..k]).None? <==> k >= |path| - Short(mem, f, path)
    decreases |path|
  {
    if Read(mem, f, path[0]).present {
      assert path[..k][1..] == path[1..][..k - 1];
      if k > 1 {
        ShortIs(mem, Read(mem, f, path[0]).frame, path[1..], k - 1);
      }
    }
  }

  lemma OnePageMissing(mem: Mem, root: Frame, page: nat)
    ensures |Missing(mem, root, page, 1)| == Short(mem, root, Path(page))
  {
    var path := Path(page);
    ShortIs(mem, root, path, 1);
    ShortIs(mem, root, path, 2);
    ShortIs(mem, root, path, 3);
    var n := Short(mem, root, path);
    var a, b, c := path[..1], path[..2], path[..3];
    assert |a| == 1 && |b| == 2 && |c| == 3;
    assert Missing(mem, root, page, 1)
        == if n == 0 then {} else if n == 1 then {c} else if n == 2 then {b, c} else {a, b, c};
  }

  /** What mapping one page leaves of the others: free or not as before, barred or not as before. */
  lemma OtherPage(mem: Mem, places: map<Frame, Place>, root: Frame, page: nat, frame: nat, flags: Flags, q: nat)
    requires Good(mem, places) && IsRoot(places, root) && FlagsOk(flags)
    requires CanonicalPage(page) && CanonicalPage(q) && q != page
    requires Install(mem, root, Path(page), flags.user, LeafPte(frame, flags)).0 == Ok
    ensures
      var mem1 := Install(mem, root, Path(page), flags.user, LeafPte(frame, flags)).1;
      && Seen(mem1, root, Path(q)) == Seen(mem, root, Path(q))
      && (flags.user ==> (Barred(mem1, root, Path(q)) <==> Barred(mem, root, Path(q))))
  {
    InstallPageSeen(mem, places, root, page, frame, flags, root, q);
    InstallTables(mem, places, root, [], root, Path(page), flags.user, LeafPte(frame, flags), Path(q), 0);
  }

  /** One page adds the tables on its own way and no other. */
  lemma AddedTables(mem: Mem, places: map<Frame, Place>, root: Frame, page: nat, frame: nat, flags: Flags, q: nat,
                    k: nat)
    requires Good(mem, places) && IsRoot(places, root) && FlagsOk(flags) && 1 <= k <= 3
    requires Install(mem, root, Path(page), flags.user, LeafPte(frame, flags)).0 == Ok
    ensures
      var mem1 := Install(mem, root, Path(page), flags.user, LeafPte(frame, flags)).1;
      TableAt(mem1, root, Path(q)[..k]).Some? <==>
      TableAt(mem, root, Path(q)[..k]).Some? || Path(q)[..k] == Path(page)[..k]
  {
    InstallTables(mem, places, root, [], root, Path(page), flags.user, LeafPte(frame, flags), Path(q), k);
    assert [] + Path(page) == Path(page);
  }

  lemma MissingHas(mem: Mem, root: Frame, page: nat, pages: nat, r: seq<nat>) returns (q: nat, k: nat)
    requires r in Missing(mem, root, page, pages)
    ensures page <= q < page + pages && 1 <= k <= 3 && r == Path(q)[..k] && TableAt(mem, root, r).None?
  {
    q, k :| page <= q < page + pages && 1 <= k <= 3 && r == Path(q)[..k] && TableAt(mem, root, r).None?;
  }

  lemma MissingIs(mem: Mem, root: Frame, page: nat, pages: nat, q: nat, k: nat)
    requires page <= q < page + pages && 1 <= k <= 3 && TableAt(mem, root, Path(q)[..k]).None?
    ensures Path(q)[..k] in Missing(mem, root, page, pages)
  {
  }

  /** The tables the first page adds are exactly those the rest of the run no longer misses. */
  lemma MissingSplits(mem: Mem, places: map<Frame, Place>, root: Frame, page: nat, frame: nat, pages: nat, flags: Flags)
    requires Good(mem, places) && IsRoot(places, root) && FlagsOk(flags) && pages > 0
    requires Install(mem, root, Path(page), flags.user, LeafPte(frame, flags)).0 == Ok
    ensures
      var mem1 := Install(mem, root, Path(page), flags.user, LeafPte(frame, flags)).1;
      var first, rest := Missing(mem, root, page, 1), Missing(mem1, root, page + 1, pages - 1);
      first !! rest && Missing(mem, root, page, pages) == first + rest
  {
    var mem1 := Install(mem, root, Path(page), flags.user, LeafPte(frame, flags)).1;
    var first, rest := Missing(mem, root, page, 1), Missing(mem1, root, page + 1, pages - 1);
    hide Good, TableAt, Install, Path, Missing;
    forall r | r in Missing(mem, root, page, pages) ensures r in first + rest {
      var q, k := MissingHas(mem, root, page, pages, r);
      AddedTables(mem, places, root, page, frame, flags, q, k);
      if r == Path(page)[..k] {
        MissingIs(mem, root, page, 1, page, k);
      } else {
        MissingIs(mem1, root, page + 1, pages - 1, q, k);
      }
    }
    forall r | r in first ensures r in Missing(mem, root, page, pages) && TableAt(mem1, root, r).Some? {
      var q, k := MissingHas(mem, root, page, 1, r);
      AddedTables(mem, places, root, page, frame, flags, page, k);
      MissingIs(mem, root, page, pages, page, k);
    }
    forall r | r in rest ensures r in Missing(mem, root, page, pages) && TableAt(mem1, root, r).None? {
      var q, k := MissingHas(mem1, root, page + 1, pages - 1, r);
      AddedTables(mem, places, root, page, frame, flags, q, k);
      MissingIs(mem, root, page, pages, q, k);
    }
  }

  lemma FirstMappable(mem: Mem, root: Frame, page: nat, pages: nat, user: bool)
    requires pages > 0
    ensures Mappable(mem, root, page, pages, user) ==>
              && Seen(mem, root, Path(page)) == None && !(user && Barred(mem, root, Path(page)))
              && Supplies(mem, |Missing(mem, root, page, 1)|)
  {
    forall r | r in Missing(mem, root, page, 1) ensures r in Missing(mem, root, page, pages) {
      var q, k := MissingHas(mem, root, page, 1, r);
      MissingIs(mem, root, page, pages, page, k);
    }
    hide Missing;
    SubsetSize(Missing(mem, root, page, 1), Missing(mem, root, page, pages));
  }

  lemma RunIsCanonical(page: nat, pages: nat)
    requires PageRun(page, pages)
    ensures forall q | page <= q < page + pages :: CanonicalPage(q)
  {
  }

  lemma RootIsFull(places: map<Frame, Place>, root: Frame, page: nat)
    requires IsRoot(places, root)
    ensures Full(places, root, Path(page)) && places[root].user
  {
  }

  /** Once the first page is mapped, the rest can be mapped exactly if the whole could. */
  lemma RestMappable(mem: Mem, places: map<Frame, Place>, root: Frame, page: nat, frame: nat, pages: nat, flags: Flags)
    requires Good(mem, places) && IsRoot(places, root) && FlagsOk(flags) && PageRun(page, pages) && pages > 0
    requires Install(mem, root, Path(page), flags.user, LeafPte(frame, flags)).0 == Ok
    ensures
      var mem1 := Install(mem, root, Path(page), flags.user, LeafPte(frame, flags)).1;
      Mappable(mem, root, page, pages, flags.user) <==> Mappable(mem1, root, page + 1, pages - 1, flags.user)
  {
    hide Missing, Install, Seen, Barred, Path, Good, Supplies, Short, IsRoot, CanonicalPage;
    var mem1 := Install(mem, root, Path(page), flags.user, LeafPte(frame, flags)).1;
    var first, rest := Missing(mem, root, page, 1), Missing(mem1, root, page + 1, pages - 1);
    RunIsCanonical(page, pages);
    RootIsFull(places, root, page);
    InstallSucceeds(mem, places, root, Path(page), flags.user, LeafPte(frame, flags));
    OnePageMissing(mem, root, page);
    MissingSplits(mem, places, root, page, frame, pages, flags);
    SuppliesAll(mem, mem1, |first|, |rest|);
    forall q | page < q < page + pages
      ensures Seen(mem1, root, Path(q)) == Seen(mem, root, Path(q))
      ensures flags.user ==> (Barred(mem1, root, Path(q)) <==> Barred(mem, root, Path(q)))
    {
      OtherPage(mem, places, root, page, frame, flags, q);
    }
    assert |first + rest| == |first| + |rest|;
  }

  /** Mapping a run of pages succeeds exactly if the memory it starts from can take all of them. */
  lemma {:induction false} MapPagesSucceed(mem: Mem, places: map<Frame, Place>, root: Frame, page: nat, frame: nat,
                                           pages: nat, flags: Flags)
    requires Good(mem, places) && IsRoot(places, root) && FlagsOk(flags) && PageRun(page, pages)
    ensures MapPages(mem, root, page, frame, pages, flags).0 == Ok <==> Mappable(mem, root, page, pages, flags.user)
    decreases pages
  {
    hide Install, Path, Good, Mappable, IsRoot, Seen, Barred, Short, Supplies, Missing;
    if pages == 0 {
      NothingMappable(mem, root, page, flags.user);
    } else {
      var (st, mem1) := Install(mem, root, Path(page), flags.user, LeafPte(frame, flags));
      RootIsFull(places, root, page);
      InstallSucceeds(mem, places, root, Path(page), flags.user, LeafPte(frame, flags));
      OnePageMissing(mem, root, page);
      FirstMappable(mem, root, page, pages, flags.user);
      if st == Ok {
        var places1 := InstallPage(mem, places, root, page, frame, flags);
        RootStays(places, places1, root);
        MapPagesSucceed(mem1, places1, root, page + 1, frame + 1, pages - 1, flags);
        RestMappable(mem, places, root, page, frame, pages, flags);
      }
    }
  }

  lemma NothingMappable(mem: Mem, root: Frame, page: nat, user: bool)
    ensures Mappable(mem, root, page, 0, user)
  {
    assert Missing(mem, root, page, 0) == {};
  }

  lemma RootStays(places: map<Frame, Place>, places1: map<Frame, Place>, root: Frame)
    requires IsRoot(places, root) && PlacesGrown(places, places1)
    ensures IsRoot(places1, root)
  {
  }

  // --- the call ---

  /** No page at the address, and no present link on the way that lacks USER when USER is asked. */
  predicate FreeAddress(mem: Mem, space: Space, user: bool, q: u64) {
    Lookup(mem, space, q).status == NotFound && !(user && Barred(mem, space.root, Path(q / PAGE_SIZE)))
  }

  /** What a caller can look up before a map call. */
  ghost predicate CanMap(mem: Mem, space: Space, va: u64, pa: u64, length: u64, flags: Flags) {
    && MapCheck(space.regions, va, pa, length, flags) == Ok
    && (forall q: u64 | va <= q < va + length && Aligned(q) :: FreeAddress(mem, space, flags.user, q))
    && Supplies(mem, |Missing(mem, space.root, va / PAGE_SIZE, length / PAGE_SIZE)|)
  }

  lemma FreeIsNotFound(mem: Mem, places: map<Frame, Place>, space: Space, q: nat)
    requires Inv(mem, places) && IsRoot(places, space.root) && CanonicalPage(q)
    ensures q * PAGE_SIZE < U64
    ensures Lookup(mem, space, q * PAGE_SIZE).status == NotFound <==> Seen(mem, space.root, Path(q)) == None
  {
    assert q * PAGE_SIZE / PAGE_SIZE == q;
    CanonicalAddressPage(q * PAGE_SIZE);
    LookupIsSeen(mem, places, space, q * PAGE_SIZE);
  }

  /** The addresses of a range and the pages of its run. */
  lemma PageOfRange(va: u64, length: u64, q: nat, address: u64)
    requires va / PAGE_SIZE * PAGE_SIZE == va && length / PAGE_SIZE * PAGE_SIZE == length
    ensures va / PAGE_SIZE <= q < va / PAGE_SIZE + length / PAGE_SIZE && q * PAGE_SIZE < U64 ==>
              va <= q * PAGE_SIZE < va + length && Aligned(q * PAGE_SIZE) && q * PAGE_SIZE / PAGE_SIZE == q
    ensures va <= address < va + length && Aligned(address) ==>
              va / PAGE_SIZE <= address / PAGE_SIZE < va / PAGE_SIZE + length / PAGE_SIZE
              && address / PAGE_SIZE * PAGE_SIZE == address
  {
  }

  lemma CanMapPages(mem: Mem, places: map<Frame, Place>, space: Space, va: u64, pa: u64, length: u64, flags: Flags)
    requires Good(mem, places) && IsRoot(places, space.root)
    requires MapCheck(space.regions, va, pa, length, flags) == Ok
    ensures CanMap(mem, space, va, pa, length, flags)
            <==> Mappable(mem, space.root, va / PAGE_SIZE, length / PAGE_SIZE, flags.user)
  {
    hide Lookup, Seen, Barred, Path, Good, Missing, Supplies, IsRoot, MapCheck, Aligned;
    var page, pages := va / PAGE_SIZE, length / PAGE_SIZE;
    CheckedRange(space.regions, va, pa, length, flags);
    RunIsCanonical(page, pages);
    GoodIsInv(mem, places);
    if CanMap(mem, space, va, pa, length, flags) {
      forall q | page <= q < page + pages
        ensures Seen(mem, space.root, Path(q)) == None && !(flags.user && Barred(mem, space.root, Path(q)))
      {
        FreeIsNotFound(mem, places, space, q);
        PageOfRange(va, length, q, va);
        assert FreeAddress(mem, space, flags.user, q * PAGE_SIZE);
      }
    }
    if Mappable(mem, space.root, page, pages, flags.user) {
      forall q: u64 | va <= q < va + length && Aligned(q) ensures FreeAddress(mem, space, flags.user, q) {
        PageOfRange(va, length, 0, q);
        FreeIsNotFound(mem, places, space, q / PAGE_SIZE);
      }
    }
  }

  /** A map call succeeds exactly if its arguments pass, every page is free, no present link on the
      way lacks USER when USER is asked, and the allocator can supply the missing tables. */
  lemma MapSucceedsExactly(mem: Mem, places: map<Frame, Place>, space: Space, va: u64, pa: u64, length: u64,
                           flags: Flags)
    requires Good(mem, places) && IsRoot(places, space.root)
    ensures Map(mem, space, va, pa, length, flags).0 == Ok <==> CanMap(mem, space, va, pa, length, flags)
  {
    if MapCheck(space.regions, va, pa, length, flags) == Ok {
      CheckedRange(space.regions, va, pa, length, flags);
      CanMapPages(mem, places, space, va, pa, length, flags);
      hide CanMap, Mappable, Good;
      MapPagesSucceed(mem, places, space.root, va / PAGE_SIZE, pa / PAGE_SIZE, length / PAGE_SIZE, flags);
    }
  }

  /** The same in every reachable system. */
  lemma ReachableMapSucceeds(supply: seq<Allocation>, ops: seq<Op>, i: nat, va: u64, pa: u64, length: u64, flags: Flags)
    requires FreshSupply(Mem(map[], supply)) && i < |Run(Boot(supply), ops).spaces|
    ensures
      var sys := Run(Boot(supply), ops);
      Step(sys, MapInto(i, va, pa, length, flags)).0 == Ok <==>
      CanMap(sys.mem, sys.spaces[i], va, pa, length, flags)
  {
    var places := ReachKeeps(supply, ops);
    var sys := Run(Boot(supply), ops);
    hide Run, CanMap, Map;
    MapSucceedsExactly(sys.mem, places, sys.spaces[i], va, pa, length, flags);
  }
}
