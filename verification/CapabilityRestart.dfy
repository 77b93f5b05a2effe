/** What a clean exit saves and a restart mints again.  The snapshot copies entries without a look
    at their lineage, so it can bring back what had been revoked. */
module CapabilityRestart {
  import opened Words
  import opened CapabilityModel
  import opened CapabilityLineage
  import opened CapabilitySweep

  // --- what is saved ---

  function ActiveBetween<T>(tb: Table<T>, i: nat, k: nat): nat
    requires k <= SLOTS
    decreases k - i
  {
    if i >= k then 0 else (if tb.entries[i].active then 1 else 0) + ActiveBetween(tb, i + 1, k)
  }

  /** Slot `i` is among the first sixteen active ones. */
  predicate Saves<T>(tb: Table<T>, i: nat) {
    i < SLOTS && tb.entries[i].active && ActiveBetween(tb, 0, i) < RESTART_CAPS
  }

  lemma {:induction false} SnapshotFrom<T>(tb: Table<T>, i: nat, room: nat, p: Saved)
    requires i <= SLOTS
    ensures p in Snapshot(tb, i, room) <==>
            exists k: nat :: i <= k < SLOTS && tb.entries[k].active && ActiveBetween(tb, i, k) < room
                             && Pair(tb.entries[k]) == p
    decreases SLOTS - i
  {
    if i < SLOTS && room > 0 {
      var left := if tb.entries[i].active then room - 1 else room;
      SnapshotFrom(tb, i + 1, left, p);
      if k: nat :| i + 1 <= k < SLOTS && tb.entries[k].active && ActiveBetween(tb, i + 1, k) < left
                   && Pair(tb.entries[k]) == p {
        assert ActiveBetween(tb, i, k) < room;
      }
      if k: nat :| i <= k < SLOTS && tb.entries[k].active && ActiveBetween(tb, i, k) < room
                   && Pair(tb.entries[k]) == p {
        assert k > i ==> ActiveBetween(tb, i + 1, k) < left;
      }
    }
  }

  lemma SnapshotExact<T>(tb: Table<T>, p: Saved)
    ensures p in Snapshot(tb, 0, RESTART_CAPS) <==> exists i: nat :: Saves(tb, i) && Pair(tb.entries[i]) == p
  {
    SnapshotFrom(tb, 0, RESTART_CAPS, p);
    if i: nat :| Saves(tb, i) && Pair(tb.entries[i]) == p {
      assert ActiveBetween(tb, 0, i) < RESTART_CAPS;
    }
    if k: nat :| 0 <= k < SLOTS && tb.entries[k].active && ActiveBetween(tb, 0, k) < RESTART_CAPS
                 && Pair(tb.entries[k]) == p {
      assert Saves(tb, k);
    }
  }

  // --- what can be used ---

  /** Some handle of table `t` reaches the object with just these rights. */
  ghost predicate Usable<T(!new)>(w: World<T>, t: T, p: Saved) {
    exists h: u64 :: Validate(w, t, h) == Ok && Pair(Held(w, t, h)) == p
  }

  ghost predicate Carries<T>(l: Ledger<T>, t: T, n: Node<T>, p: Saved) {
    n.table == t && LineageAlive(l, n) && l.born[n].obj == p.obj && l.born[n].rights == p.rights
  }

  lemma HeldCarries<T(!new)>(s: State<T>, l: Ledger<T>, t: T, h: u64)
    requires Inv(s, l) && Validate(s.world, t, h) == Ok
    ensures Carries(l, t, NodeAt(l, t, h), Pair(Held(s.world, t, h)))
  {
    ValidateExact(s, l, t, h);
    AliveIsLive(s, l, NodeAt(l, t, h));
    NodeHeld(s, l, NodeAt(l, t, h));
  }

  lemma AliveIsLive<T>(s: State<T>, l: Ledger<T>, n: Node<T>)
    requires Inv(s, l) && LineageAlive(l, n)
    ensures n !in l.dead
  {
    assert NodeOk(s, l, n);
    assert l.born[n].lineage[0] == n;
  }

  lemma CarriedIsUsable<T(!new)>(s: State<T>, l: Ledger<T>, t: T, n: Node<T>, p: Saved)
    requires Inv(s, l) && Carries(l, t, n, p)
    ensures Usable(s.world, t, p)
  {
    AliveIsLive(s, l, n);
    NodeHeld(s, l, n);
    assert NodeOk(s, l, n) && TableOk(s, l, t);
    var h := MakeHandle(n.slot, n.generation);
    HandleRoundTrip(n.slot, n.generation);
    assert NodeAt(l, t, h) == n;
    ValidateExact(s, l, t, h);
    assert Pair(Held(s.world, t, h)) == p;
  }

  /** Usable is what the ledger says is carried. */
  lemma UsableExact<T(!new)>(s: State<T>, l: Ledger<T>, t: T, p: Saved)
    requires Inv(s, l)
    ensures Usable(s.world, t, p) <==> exists n :: Carries(l, t, n, p)
  {
    hide Inv, Validate;
    if h: u64 :| Validate(s.world, t, h) == Ok && Pair(Held(s.world, t, h)) == p {
      HeldCarries(s, l, t, h);
    }
    if n :| Carries(l, t, n, p) {
      CarriedIsUsable(s, l, t, n, p);
    }
  }

  /** A root mint adds exactly what it names to what its table can use. */
  lemma MintUsable<T(!new)>(s: State<T>, l: Ledger<T>, t: T, p: Saved, q: Saved)
    requires Inv(s, l) && Step(s, Mint(t, p.obj, p.rights)).1.status == Ok
    ensures Usable(Step(s, Mint(t, p.obj, p.rights)).0.world, t, q) <==> Usable(s.world, t, q) || q == p
  {
    hide Inv, Step, Usable, Grows, Carries;
    var op := Mint(t, p.obj, p.rights);
    var (s', r) := Step(s, op);
    var l' := Observe(l, op, r);
    var n := NodeAt(l, t, r.handle);
    MintKeeps(s, l, t, p.obj, p.rights);
    MintedIsNew(s, l, t, p.obj, p.rights);
    UsableExact(s, l, t, q);
    UsableExact(s', l', t, q);
    forall m ensures Carries(l', t, m, q) <==> if m == n then q == p else Carries(l, t, m, q) {
      MintCarries(s, l, l', t, n, p, m, q);
    }
    if m :| Carries(l, t, m, q) {
      CarriesIsBorn(l, t, m, q);
      assert Carries(l', t, m, q);
    }
    assert Carries(l', t, n, q) <==> q == p;
  }

  lemma CarriesIsBorn<T>(l: Ledger<T>, t: T, n: Node<T>, p: Saved)
    requires Carries(l, t, n, p)
    ensures n in l.born
  {
  }

  lemma MintedIsNew<T>(s: State<T>, l: Ledger<T>, t: T, obj: u64, rights: Rights)
    requires Inv(s, l) && Step(s, Mint(t, obj, rights)).1.status == Ok
    ensures NodeAt(l, t, Step(s, Mint(t, obj, rights)).1.handle) !in l.born
  {
    var i := FreeSlot(s.world[t], 0);
    HandleRoundTrip(i, s.world[t].entries[i].generation);
    var n := NodeAt(l, t, Step(s, Mint(t, obj, rights)).1.handle);
    assert TableOk(s, l, t);
    assert n in l.born ==> NodeOk(s, l, n);
  }

  lemma MintCarries<T>(s: State<T>, l: Ledger<T>, l': Ledger<T>, t: T, n: Node<T>, p: Saved, m: Node<T>, q: Saved)
    requires Inv(s, l) && n !in l.born && n.table == t
    requires l'.born == l.born[n := Birth([n], p.obj, p.rights)] && l'.dead == l.dead
    ensures Carries(l', t, m, q) <==> if m == n then q == p else Carries(l, t, m, q)
  {
    assert n !in l.dead;
  }

  // --- minting again ---

  /** After a restart a table can use what it could before and what was saved. */
  lemma {:induction false} RemintUsable<T(!new)>(s: State<T>, l: Ledger<T>, t: T, saved: seq<Saved>, q: Saved)
    requires Inv(s, l) && Remint(s.world, t, saved).1 == Ok
    ensures Usable(Remint(s.world, t, saved).0, t, q) <==> Usable(s.world, t, q) || q in saved
    decreases |saved|
  {
    hide Inv, Usable, Grows;
    if saved != [] {
      var op := Mint(t, saved[0].obj, saved[0].rights);
      var (s', r) := Step(s, op);
      MintKeeps(s, l, t, saved[0].obj, saved[0].rights);
      MintUsable(s, l, t, saved[0], q);
      RemintUsable(s', Observe(l, op, r), t, saved[1..], q);
    }
  }

  /** The slots that can be filled: not active, not permanently retired. */
  function Spare<T>(tb: Table<T>): set<nat> {
    set i: nat | i < SLOTS && !tb.entries[i].active && tb.entries[i].generation != 0
  }

  lemma MintSpends<T(!new)>(w: World<T>, t: T, obj: u64, rights: Rights)
    requires t in w && obj != 0 && Known(rights)
    ensures var (w', r) := MintLinked(w, t, obj, rights, Root);
            && (r.status == Ok <==> Spare(w[t]) != {})
            && (r.status == Ok ==> t in w' && |Spare(w'[t])| == |Spare(w[t])| - 1)
  {
    var i := FreeSlot(w[t], 0);
    var (w', r) := MintLinked(w, t, obj, rights, Root);
    if i < SLOTS {
      assert i in Spare(w[t]);
      assert Spare(w'[t]) == Spare(w[t]) - {i};
    } else {
      assert Spare(w[t]) == {};
    }
  }

  /** A restart goes through exactly if there are as many slots to fill as capabilities saved. */
  lemma {:induction false} RemintSucceeds<T(!new)>(w: World<T>, t: T, saved: seq<Saved>)
    requires t in w && forall p <- saved :: p.obj != 0 && Known(p.rights)
    ensures Remint(w, t, saved).1 == Ok <==> |saved| <= |Spare(w[t])|
    decreases |saved|
  {
    if saved != [] {
      hide MintLinked, Spare;
      MintSpends(w, t, saved[0].obj, saved[0].rights);
      var (w', r) := MintLinked(w, t, saved[0].obj, saved[0].rights, Root);
      if r.status == Ok {
        RemintSucceeds(w', t, saved[1..]);
      }
    }
  }

  // --- every active entry can be minted ---

  ghost predicate Mintable<T(!new)>(w: World<T>) {
    forall t, i: nat | t in w && i < SLOTS && w[t].entries[i].active ::
      w[t].entries[i].obj != 0 && Known(w[t].entries[i].rights)
  }

  lemma StepMintable<T(!new)>(s: State<T>, op: Op<T>)
    requires Mintable(s.world)
    ensures Mintable(Step(s, op).0.world)
  {
    hide Walk, Known, MintLinked;
    match op
    case Mint(t, obj, rights) => LinkedMintable(s.world, t, obj, rights, Root);
    case Restrict(t, source, rights) => DerivedMintable(s.world, t, source, t, rights, false);
    case Transfer(t, source, into, rights) => DerivedMintable(s.world, t, source, into, rights, true);
    case _ =>
  }

  lemma DerivedMintable<T(!new)>(w: World<T>, t: T, source: u64, into: T, rights: Rights, crossing: bool)
    requires Mintable(w)
    ensures Mintable(Derive(w, t, source, into, rights, crossing).0)
  {
    hide Walk, Known, MintLinked, Mintable;
    if Validate(w, t, source) == Ok {
      var e := Held(w, t, source);
      LinkedMintable(w, into, e.obj, rights, ChildOf(e, t, source));
    }
  }

  lemma LinkedMintable<T(!new)>(w: World<T>, t: T, obj: u64, rights: Rights, link: Link<T>)
    requires Mintable(w)
    ensures Mintable(MintLinked(w, t, obj, rights, link).0)
  {
    hide Known;
  }

  lemma {:induction false} RunMintable<T(!new)>(s: State<T>, l: Ledger<T>, ops: seq<Op<T>>)
    requires Mintable(s.world)
    ensures Mintable(Run(s, l, ops).0.world)
    decreases |ops|
  {
    if ops != [] {
      hide Mintable, Step;
      StepMintable(s, ops[0]);
      var (s1, r) := Step(s, ops[0]);
      RunMintable(s1, Observe(l, ops[0], r), ops[1..]);
    }
  }

  lemma SavedMintable<T(!new)>(ts: set<T>, ops: seq<Op<T>>, t: T)
    requires t in ts
    ensures forall p <- Snapshot(Reach(ts, ops).0.world[t], 0, RESTART_CAPS) :: p.obj != 0 && Known(p.rights)
  {
    var (s0, l0) := Boot(ts);
    RunMintable(s0, l0, ops);
    var w := Reach(ts, ops).0.world;
    hide Run, Reach;
    forall p <- Snapshot(w[t], 0, RESTART_CAPS) ensures p.obj != 0 && Known(p.rights) {
      SnapshotExact(w[t], p);
      var i: nat :| Saves(w[t], i) && Pair(w[t].entries[i]) == p;
    }
  }

  // --- clean exit and restart, in every reachable state ---

  /** Clean exit, anything at all in between, restart: it goes through exactly if enough slots can be
      filled, and then adds exactly the first sixteen active entries the exit found. */
  lemma RestartExact<T(!new)>(ts: set<T>, before: seq<Op<T>>, between: seq<Op<T>>, t: T, p: Saved)
    requires Inits(before) + Inits(between) < U64 - 1 && t in ts
    ensures
      var tb := Reach(ts, before).0.world[t];
      var w := Reach(ts, before + [RevokeAll(t)] + between).0.world;
      var (w', status) := Remint(w, t, Snapshot(tb, 0, RESTART_CAPS));
      && (status == Ok <==> |Snapshot(tb, 0, RESTART_CAPS)| <= |Spare(w[t])|)
      && (status == Ok ==>
            (Usable(w', t, p) <==>
             Usable(w, t, p) || exists i: nat :: Saves(tb, i) && Pair(tb.entries[i]) == p))
  {
    var (s0, l0) := Boot(ts);
    var ops := before + [RevokeAll(t)] + between;
    assert Inits([RevokeAll(t)]) == 0;
    RunSplits(s0, l0, before, [RevokeAll(t)]);
    RunSplits(s0, l0, before + [RevokeAll(t)], between);
    ReachKeeps(ts, ops);
    SavedMintable(ts, before, t);
    var tb := Reach(ts, before).0.world[t];
    var (s, l) := Reach(ts, ops);
    var saved := Snapshot(tb, 0, RESTART_CAPS);
    hide Inv, Run, Reach, Usable, Remint, Spare, Snapshot, Saves;
    RemintSucceeds(s.world, t, saved);
    SnapshotExact(tb, p);
    if Remint(s.world, t, saved).1 == Ok {
      RemintUsable(s, l, t, saved, p);
    }
  }

  lemma RetiredAll<T>(tb: Table<T>)
    ensures forall i: nat | i < SLOTS :: !RetireSlots(tb, ActiveSlots(tb)).entries[i].active
  {
    forall i: nat | i < SLOTS ensures !RetireSlots(tb, ActiveSlots(tb)).entries[i].active {
      assert tb.entries[i].active ==> i in ActiveSlots(tb);
    }
  }

  lemma InactiveUnusable<T(!new)>(w: World<T>, t: T, p: Saved)
    requires t in w ==> forall i: nat | i < SLOTS :: !w[t].entries[i].active
    ensures !Usable(w, t, p)
  {
  }

  lemma AllRevoked<T(!new)>(s: State<T>, t: T, p: Saved)
    ensures !Usable(Step(s, RevokeAll(t)).0.world, t, p)
  {
    hide Usable, RetireSlots, ActiveSlots;
    if t in s.world {
      RetiredAll(s.world[t]);
    }
    InactiveUnusable(Step(s, RevokeAll(t)).0.world, t, p);
  }

  lemma CleanExitEnds<T(!new)>(ts: set<T>, before: seq<Op<T>>, t: T, p: Saved)
    ensures !Usable(Reach(ts, before + [RevokeAll(t)]).0.world, t, p)
  {
    hide Usable, Step, Run;
    var (s0, l0) := Boot(ts);
    OneStep(s0, l0, before, RevokeAll(t));
    AllRevoked(Run(s0, l0, before).0, t, p);
  }

  lemma OneStep<T>(s: State<T>, l: Ledger<T>, ops: seq<Op<T>>, op: Op<T>)
    ensures Run(s, l, ops + [op]).0 == Step(Run(s, l, ops).0, op).0
  {
    RunSplits(s, l, ops, [op]);
    var (s1, l1) := Run(s, l, ops);
    var (s2, r) := Step(s1, op);
    assert Run(s2, Observe(l1, op, r), []) == (s2, Observe(l1, op, r));
  }

  function NodeIn<T>(tb: Table<T>, t: T, i: nat): Node<T>
    requires i < SLOTS
  {
    Node(t, tb.incarnation, i, tb.entries[i].generation)
  }

  /** Something above it, or itself, was retired. */
  ghost predicate Severed<T>(l: Ledger<T>, n: Node<T>) {
    n in l.born && exists m <- l.born[n].lineage :: m in l.dead
  }

  /** An active entry either can be used or hangs below something retired. */
  lemma ActiveUsable<T(!new)>(s: State<T>, l: Ledger<T>, t: T, i: nat)
    requires Inv(s, l) && t in s.world && i < SLOTS && s.world[t].entries[i].active
    ensures !Severed(l, NodeIn(s.world[t], t, i)) ==> Usable(s.world, t, Pair(s.world[t].entries[i]))
  {
    var n := NodeIn(s.world[t], t, i);
    assert SlotOk(s, l, t, i);
    if !Severed(l, n) {
      CarriedIsUsable(s, l, t, n, Pair(s.world[t].entries[i]));
    }
  }

  /** Clean exit and restart give a table something it could not use before exactly if one of its
      first sixteen active entries hangs below something retired, and nothing else in the table
      still reaches the same object with the same rights. */
  lemma RestartRevivesExactly<T(!new)>(ts: set<T>, before: seq<Op<T>>, t: T)
    requires Inits(before) < U64 - 1 && t in ts
    ensures
      var (s, l) := Reach(ts, before);
      var tb := s.world[t];
      var (w', status) := Remint(Reach(ts, before + [RevokeAll(t)]).0.world, t, Snapshot(tb, 0, RESTART_CAPS));
      status == Ok ==>
        ((exists p :: Usable(w', t, p) && !Usable(s.world, t, p)) <==>
         exists i: nat :: Saves(tb, i) && Severed(l, NodeIn(tb, t, i)) && !Usable(s.world, t, Pair(tb.entries[i])))
  {
    var (s, l) := Reach(ts, before);
    var tb := s.world[t];
    var w := Reach(ts, before + [RevokeAll(t)]).0.world;
    ReachKeeps(ts, before);
    assert before + [RevokeAll(t)] + [] == before + [RevokeAll(t)];
    hide Inv, Reach, Usable, Remint, Snapshot, Severed, Spare;
    var (w', status) := Remint(w, t, Snapshot(tb, 0, RESTART_CAPS));
    forall p ensures status == Ok ==>
      (Usable(w', t, p) <==> exists i: nat :: Saves(tb, i) && Pair(tb.entries[i]) == p)
    {
      RestartExact(ts, before, [], t, p);
      CleanExitEnds(ts, before, t, p);
    }
    forall i: nat | Saves(tb, i)
      ensures !Severed(l, NodeIn(tb, t, i)) ==> Usable(s.world, t, Pair(tb.entries[i]))
    {
      ActiveUsable(s, l, t, i);
    }
  }

  lemma Regroup<X>(a: seq<X>, b: seq<X>, c: seq<X>, d: seq<X>)
    ensures a + b + c + d == a + b + (c + d)
  {
  }

  /** A destroyed object comes back with the restart of a process that had saved it: no handle in any
      table reaches it after the sweep, and the restarted table does. */
  lemma RestartBringsItBack<T(!new)>(ts: set<T>, before: seq<Op<T>>, between: seq<Op<T>>, order: seq<T>, t: T, p: Saved)
    requires Inits(before) + Inits(between) < U64 - 1 && t in ts
    requires p in Snapshot(Reach(ts, before).0.world[t], 0, RESTART_CAPS)
    requires SweptAll(Reach(ts, before + [RevokeAll(t)] + between).0.world, order, p.obj)
    ensures
      var saved := Snapshot(Reach(ts, before).0.world[t], 0, RESTART_CAPS);
      var w := Reach(ts, before + [RevokeAll(t)] + between + Sweep(order, p.obj)).0.world;
      var (w', status) := Remint(w, t, saved);
      && (forall u, h :: !(Validate(w, u, h) == Ok && Held(w, u, h).obj == p.obj))
      && (status == Ok <==> |saved| <= |Spare(w[t])|)
      && (status == Ok ==> Usable(w', t, p))
  {
    hide Reach, Run, Usable, Remint, Snapshot, Spare, SweptAll, Sweep, Held, Validate;
    SavedMintable(ts, before, t);
    SweptIsGone(ts, before + [RevokeAll(t)] + between, order, p.obj);
    SweptInits(between, order, p.obj);
    Regroup(before, [RevokeAll(t)], between, Sweep(order, p.obj));
    SavedIsRevived(ts, before, between + Sweep(order, p.obj), t, p);
  }

  lemma SweptInits<T>(between: seq<Op<T>>, order: seq<T>, obj: u64)
    ensures Inits(between + Sweep(order, obj)) == Inits(between)
  {
    var none: set<T> := {};
    var (s0, l0) := Boot(none);
    SweepInits(order, obj);
    RunSplits(s0, l0, between, Sweep(order, obj));
  }

  /** Everything saved can be used again after the restart, whatever happened in between. */
  lemma SavedIsRevived<T(!new)>(ts: set<T>, before: seq<Op<T>>, between: seq<Op<T>>, t: T, p: Saved)
    requires Inits(before) + Inits(between) < U64 - 1 && t in ts
    requires p in Snapshot(Reach(ts, before).0.world[t], 0, RESTART_CAPS)
    ensures
      var saved := Snapshot(Reach(ts, before).0.world[t], 0, RESTART_CAPS);
      var w := Reach(ts, before + [RevokeAll(t)] + between).0.world;
      var (w', status) := Remint(w, t, saved);
      && (status == Ok <==> |saved| <= |Spare(w[t])|)
      && (status == Ok ==> Usable(w', t, p))
  {
    hide Reach, Run, Usable, Remint, Snapshot, Spare, Saves, Pair;
    SnapshotExact(Reach(ts, before).0.world[t], p);
    RestartExact(ts, before, between, t, p);
  }

  lemma SweptIsGone<T(!new)>(ts: set<T>, ops: seq<Op<T>>, order: seq<T>, obj: u64)
    requires obj != 0 && SweptAll(Reach(ts, ops).0.world, order, obj)
    ensures var w := Reach(ts, ops + Sweep(order, obj)).0.world;
            forall u, h :: !(Validate(w, u, h) == Ok && Held(w, u, h).obj == obj)
  {
    hide Reach, Run, SweptAll, Sweep, Held, Validate;
    assert ops + Sweep(order, obj) + [] == ops + Sweep(order, obj);
    var w := Reach(ts, ops + Sweep(order, obj)).0.world;
    forall u, h ensures !(Validate(w, u, h) == Ok && Held(w, u, h).obj == obj) {
      DestroyedObjectComesBackOnlyByMinting(ts, ops, order, obj, [], u, h, 0);
    }
  }

  // --- a run in which a revoked authority comes back ---

  lemma TwoFresh<T>(a: T, b: T)
    requires a != b
    ensures var s := Step(Step(Boot({a, b}).0, Init(a)).0, Init(b)).0;
            s.world.Keys == {a, b} && s.world[a] == FreshTable(1) && s.world[b] == FreshTable(2)
  {
  }

  lemma FirstMint<T>(s: State<T>, t: T, obj: u64, rights: Rights)
    requires t in s.world && s.world[t].entries[0].generation == 1 && !s.world[t].entries[0].active
    requires obj != 0 && Known(rights)
    ensures Step(s, Mint(t, obj, rights)).0.world
            == s.world[t := RawTable(s.world[t].incarnation,
                                     s.world[t].entries[0 := Entry(obj, rights, 1, true, 0, None, 0, 0)])]
  {
    assert FreeSlot(s.world[t], 0) == 0;
  }

  lemma FirstTransfer<T>(s: State<T>, a: T, b: T, obj: u64, rights: Rights)
    requires a in s.world && b in s.world && a != b && Known(rights)
    requires obj != 0 && s.world[a].entries[0] == Entry(obj, KNOWN, 1, true, 0, None, 0, 0)
    requires s.world[b].entries[0].generation == 1 && !s.world[b].entries[0].active
    ensures
      var e := Entry(obj, rights, 1, true, 1, Some(a), s.world[a].incarnation, MakeHandle(0, 1));
      Step(s, Transfer(a, MakeHandle(0, 1), b, rights)).0.world
      == s.world[b := RawTable(s.world[b].incarnation, s.world[b].entries[0 := e])]
  {
    HandleRoundTrip(0, 1);
    assert KNOWN & TRANSFER != 0;
    assert FreeSlot(s.world[b], 0) == 0;
  }

  lemma FirstRevoke<T>(s: State<T>, a: T, obj: u64)
    requires a in s.world && s.world[a].entries[0] == Entry(obj, KNOWN, 1, true, 0, None, 0, 0)
    ensures Step(s, Revoke(a, MakeHandle(0, 1))).0.world == s.world[a := RetireSlots(s.world[a], {0})]
  {
    HandleRoundTrip(0, 1);
    assert KNOWN & REVOKE != 0;
  }

  /** One table hands a capability to another and then revokes its own. */
  function HandedAndRevoked<T>(a: T, b: T, obj: u64, rights: Rights): seq<Op<T>> {
    [Init(a), Init(b), Mint(a, obj, KNOWN), Transfer(a, MakeHandle(0, 1), b, rights), Revoke(a, MakeHandle(0, 1))]
  }

  function HandedTable<T>(a: T, obj: u64, rights: Rights): Table<T> {
    RawTable(2, FreshTable<T>(2).entries[0 := Entry(obj, rights, 1, true, 1, Some(a), 1, MakeHandle(0, 1))])
  }

  /** What that run leaves: the child is still active, below an entry that is not. */
  lemma HandedState<T(!new)>(a: T, b: T, obj: u64, rights: Rights)
    requires a != b && obj != 0 && Known(rights)
    ensures
      var w := Reach({a, b}, HandedAndRevoked(a, b, obj, rights)).0.world;
      && !w[a].entries[0].active
      && w[b] == HandedTable(a, obj, rights)
  {
    HandedRun(a, b, obj, rights);
    var s2 := Step(Step(Boot({a, b}).0, Init(a)).0, Init(b)).0;
    var s3 := Step(s2, Mint(a, obj, KNOWN)).0;
    var s4 := Step(s3, Transfer(a, MakeHandle(0, 1), b, rights)).0;
    hide Step, Run, MakeHandle, Known, Boot, HandedAndRevoked;
    TwoFresh(a, b);
    KnownIsKnown();
    FirstMint(s2, a, obj, KNOWN);
    FirstTransfer(s3, a, b, obj, rights);
    FirstRevoke(s4, a, obj);
  }

  lemma HandedRun<T>(a: T, b: T, obj: u64, rights: Rights)
    ensures
      var s2 := Step(Step(Boot({a, b}).0, Init(a)).0, Init(b)).0;
      var s4 := Step(Step(s2, Mint(a, obj, KNOWN)).0, Transfer(a, MakeHandle(0, 1), b, rights)).0;
      Reach({a, b}, HandedAndRevoked(a, b, obj, rights)).0 == Step(s4, Revoke(a, MakeHandle(0, 1))).0
  {
    hide Step;
    var (s0, l0) := Boot({a, b});
    var ops := HandedAndRevoked(a, b, obj, rights);
    assert ops[..0] == [] && ops[..1] == ops[..0] + [ops[0]] && ops[..2] == ops[..1] + [ops[1]];
    assert ops[..3] == ops[..2] + [ops[2]] && ops[..4] == ops[..3] + [ops[3]] && ops == ops[..4] + [ops[4]];
    assert Run(s0, l0, []).0 == s0;
    hide Run;
    OneStep(s0, l0, ops[..0], ops[0]);
    OneStep(s0, l0, ops[..1], ops[1]);
    OneStep(s0, l0, ops[..2], ops[2]);
    OneStep(s0, l0, ops[..3], ops[3]);
    OneStep(s0, l0, ops[..4], ops[4]);
  }

  lemma KnownIsKnown()
    ensures Known(KNOWN)
  {
  }

  /** For any object and any rights: after that run the second table cannot use what it was handed;
      after a clean exit and a restart it can. */
  lemma RevokedComesBack<T(!new)>(a: T, b: T, obj: u64, rights: Rights)
    requires a != b && obj != 0 && Known(rights)
    ensures
      var before := HandedAndRevoked(a, b, obj, rights);
      var w := Reach({a, b}, before).0.world;
      var saved := Snapshot(w[b], 0, RESTART_CAPS);
      var (w', status) := Remint(Reach({a, b}, before + [RevokeAll(b)]).0.world, b, saved);
      var p := Saved(obj, rights);
      w[b].entries[0].active && !Usable(w, b, p) && status == Ok && Usable(w', b, p)
  {
    var before := HandedAndRevoked(a, b, obj, rights);
    var w := Reach({a, b}, before).0.world;
    HandedState(a, b, obj, rights);
    HandedUnusable(w, a, b, obj, rights);
    assert Saves(w[b], 0) && Pair(w[b].entries[0]) == Saved(obj, rights);
    assert Inits(before) == 2 by { HandedInits(a, b, obj, rights); }
    assert before + [RevokeAll(b)] + [] == before + [RevokeAll(b)];
    RestartExact({a, b}, before, [], b, Saved(obj, rights));
    ExitedSpare(a, b, obj, rights);
  }

  lemma HandedInits<T>(a: T, b: T, obj: u64, rights: Rights)
    ensures Inits(HandedAndRevoked(a, b, obj, rights)) == 2
  {
    var ops := HandedAndRevoked(a, b, obj, rights);
    assert ops == [Init(a), Init(b)] + ops[2..];
    assert Inits(ops[4..]) == 0 && Inits(ops[3..]) == 0 by { assert ops[3..][1..] == ops[4..]; }
    assert Inits(ops[2..]) == 0 by { assert ops[2..][1..] == ops[3..]; }
    assert Inits(ops[1..]) == 1 by { assert ops[1..][1..] == ops[2..]; }
  }

  lemma HandedUnusable<T(!new)>(w: World<T>, a: T, b: T, obj: u64, rights: Rights)
    requires a in w && b in w && !w[a].entries[0].active
    requires w[b] == HandedTable(a, obj, rights)
    ensures !Usable(w, b, Saved(obj, rights))
  {
    HandleRoundTrip(0, 1);
    assert !Walk(w, w[b].entries[0], 0);
  }

  lemma ExitedSpare<T(!new)>(a: T, b: T, obj: u64, rights: Rights)
    requires a != b && obj != 0 && Known(rights)
    ensures |Spare(Reach({a, b}, HandedAndRevoked(a, b, obj, rights) + [RevokeAll(b)]).0.world[b])| == SLOTS
  {
    var before := HandedAndRevoked(a, b, obj, rights);
    var (s0, l0) := Boot({a, b});
    var s := Run(s0, l0, before).0;
    OneStep(s0, l0, before, RevokeAll(b));
    HandedState(a, b, obj, rights);
    hide Step, Run, Spare, HandedAndRevoked;
    ExitSpare(s, b);
  }

  lemma ExitSpare<T>(s: State<T>, b: T)
    requires b in s.world && forall i: nat | i < SLOTS :: s.world[b].entries[i].generation == 1
    ensures |Spare(Step(s, RevokeAll(b)).0.world[b])| == SLOTS
  {
    hide RetireSlots, ActiveSlots, Spare;
    SpareAfterExit(s.world[b]);
  }

  lemma SpareAfterExit<T>(tb: Table<T>)
    requires forall i: nat | i < SLOTS :: tb.entries[i].generation == 1
    ensures |Spare(RetireSlots(tb, ActiveSlots(tb)))| == SLOTS
  {
    var after := RetireSlots(tb, ActiveSlots(tb));
    RetiredAll(tb);
    forall i: nat | i < SLOTS ensures after.entries[i].generation != 0 {
      assert tb.entries[i].generation == 1;
    }
    hide RetireSlots, ActiveSlots;
    assert Spare(after) == Below(SLOTS);
  }
}
