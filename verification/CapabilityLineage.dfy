/** What the tables promise over whole runs.  A ledger is kept from the calls and their answers
    alone: which capabilities were handed out, from which lineage, and which were retired.  The
    walk through the stored links is then proved to answer exactly what the ledger says. */
module CapabilityLineage {
  import opened Words
  import opened CapabilityModel

  /** One capability ever handed out. */
  datatype Node<T> = Node(table: T, epoch: nat, slot: nat, generation: nat)

  /** What was recorded when it was handed out; lineage runs from itself up to its root. */
  datatype Birth<T> = Birth(lineage: seq<Node<T>>, obj: u64, rights: Rights)

  datatype Ledger<!T> = Ledger(
    epochs: map<T, nat>, clock: nat, born: map<Node<T>, Birth<T>>, dead: set<Node<T>>)

  function NodeAt<T(==)>(l: Ledger<T>, t: T, h: u64): Node<T> {
    Node(t, if t in l.epochs then l.epochs[t] else 0, HandleSlot(h), HandleGeneration(h))
  }

  function NodesIn<T(==)>(l: Ledger<T>, t: T): set<Node<T>> {
    set n | n in l.born && n.table == t
  }

  function NodesNaming<T(==)>(l: Ledger<T>, t: T, obj: u64): set<Node<T>> {
    set n | n in l.born && n.table == t && l.born[n].obj == obj
  }

  /** Handed out, and neither it nor any ancestor recorded at its derivation was retired. */
  ghost predicate LineageAlive<T>(l: Ledger<T>, n: Node<T>) {
    n in l.born && forall m | m in l.born[n].lineage :: m !in l.dead
  }

  function ObserveDerived<T(==)>(l: Ledger<T>, t: T, source: u64, into: T, rights: Rights, r: Response)
    : Ledger<T>
  {
    var m := NodeAt(l, t, source);
    if r.status != Ok || m !in l.born then l
    else
      var n := NodeAt(l, into, r.handle);
      Ledger(l.epochs, l.clock,
             l.born[n := Birth([n] + l.born[m].lineage, l.born[m].obj, rights)], l.dead)
  }

  function Observe<T(==)>(l: Ledger<T>, op: Op<T>, r: Response): Ledger<T> {
    match op
    case Init(t) =>
      if t !in l.epochs then l
      else Ledger(l.epochs[t := l.clock + 1], l.clock + 1, l.born, l.dead + NodesIn(l, t))
    case Clear(t) =>
      if t !in l.epochs then l
      else Ledger(l.epochs[t := 0], l.clock, l.born, l.dead + NodesIn(l, t))
    case Mint(t, obj, rights) =>
      if r.status != Ok then l
      else
        var n := NodeAt(l, t, r.handle);
        Ledger(l.epochs, l.clock, l.born[n := Birth([n], obj, rights)], l.dead)
    case Restrict(t, source, rights) => ObserveDerived(l, t, source, t, rights, r)
    case Transfer(t, source, into, rights) => ObserveDerived(l, t, source, into, rights, r)
    case Revoke(t, h) =>
      if r.status != Ok then l
      else Ledger(l.epochs, l.clock, l.born, l.dead + {NodeAt(l, t, h)})
    case RevokeObject(t, obj) =>
      if obj == 0 then l
      else Ledger(l.epochs, l.clock, l.born, l.dead + NodesNaming(l, t, obj))
    case RevokeAll(t) =>
      Ledger(l.epochs, l.clock, l.born, l.dead + NodesIn(l, t))
  }

  // --- runs ---

  function Boot<T(==)>(ts: set<T>): (State<T>, Ledger<T>) {
    (State(map t | t in ts :: ZeroTable(), 1), Ledger(map t | t in ts :: 0, 0, map[], {}))
  }

  function Run<T(==)>(s: State<T>, l: Ledger<T>, ops: seq<Op<T>>): (r: (State<T>, Ledger<T>))
    ensures r.0.world.Keys == s.world.Keys
    decreases |ops|
  {
    if ops == [] then (s, l)
    else
      var (s', r) := Step(s, ops[0]);
      Run(s', Observe(l, ops[0], r), ops[1..])
  }

  function Inits<T(==)>(ops: seq<Op<T>>): nat {
    if ops == [] then 0 else (if ops[0].Init? then 1 else 0) + Inits(ops[1..])
  }

  // --- the invariant between tables and ledger ---

  ghost predicate Matches<T>(e: Entry<T>, b: Birth<T>) {
    && e.obj == b.obj && e.obj != 0 && e.rights == b.rights
    && 1 <= |b.lineage| <= MAX_DEPTH + 1 && e.depth == |b.lineage| - 1
    && (|b.lineage| == 1 ==> e.parent == None)
    && (|b.lineage| > 1 ==>
          var p := b.lineage[1];
          && e.parent == Some(p.table) && e.parentIncarnation == p.epoch
          && p.slot < SLOTS && p.generation < U32
          && e.parentHandle == MakeHandle(p.slot, p.generation))
  }

  ghost predicate TableOk<T>(s: State<T>, l: Ledger<T>, t: T)
    requires t in s.world
  {
    && t in l.epochs && s.world[t].incarnation == l.epochs[t] <= l.clock
    && (l.epochs[t] == 0 ==> forall i | 0 <= i < SLOTS :: s.world[t].entries[i].generation == 0)
  }

  ghost predicate SlotOk<T>(s: State<T>, l: Ledger<T>, t: T, i: nat)
    requires t in s.world && i < SLOTS
  {
    var e := s.world[t].entries[i];
    e.active ==>
      var n := Node(t, s.world[t].incarnation, i, e.generation);
      n in l.born && n !in l.dead && Matches(e, l.born[n])
  }

  ghost predicate ParentOk<T>(l: Ledger<T>, b: Birth<T>) {
    |b.lineage| > 1 ==>
      && b.lineage[1] in l.born
      && var up := l.born[b.lineage[1]];
      && up.lineage == b.lineage[1..] && up.obj == b.obj && Contained(b.rights, up.rights)
  }

  ghost predicate NodeOk<T>(s: State<T>, l: Ledger<T>, n: Node<T>)
    requires n in l.born
  {
    var b := l.born[n];
    && n.table in s.world && 1 <= n.epoch <= l.clock && n.slot < SLOTS && 0 < n.generation < U32
    && 1 <= |b.lineage| <= MAX_DEPTH + 1 && b.lineage[0] == n
    && ParentOk(l, b)
    && var e := s.world[n.table].entries[n.slot];
    && (n.epoch == s.world[n.table].incarnation ==>
          (e.generation == 0 || n.generation <= e.generation)
          && (n.generation == e.generation ==> e.active))
    && (n !in l.dead ==>
          n.epoch == s.world[n.table].incarnation && e.active && e.generation == n.generation)
  }

  ghost predicate Inv<T>(s: State<T>, l: Ledger<T>) {
    && s.next == l.clock + 1
    && s.world.Keys == l.epochs.Keys
    && l.dead <= l.born.Keys
    && (forall t | t in s.world :: TableOk(s, l, t))
    && (forall t, i: nat | t in s.world && i < SLOTS :: SlotOk(s, l, t, i))
    && (forall n | n in l.born :: NodeOk(s, l, n))
  }

  // --- the walk answers exactly what the ledger says ---

  /** One hop up: the stored link of a live entry is intact just when the parent is not dead. */
  lemma LinkExact<T>(s: State<T>, l: Ledger<T>, n: Node<T>)
    requires Inv(s, l) && n in l.born && n !in l.dead && |l.born[n].lineage| > 1
    ensures
      var e := s.world[n.table].entries[n.slot];
      var p := l.born[n].lineage[1];
      && p in l.born && l.born[n].lineage == [n] + l.born[p].lineage
      && p.table in s.world && p.slot < SLOTS && 0 < p.generation < U32
      && e.parent == Some(p.table) && e.depth == |l.born[n].lineage| - 1
      && e.parentHandle == MakeHandle(p.slot, p.generation)
      && var up := s.world[p.table];
      && (p !in l.dead <==>
            e.parentIncarnation == up.incarnation
            && up.entries[p.slot].active && up.entries[p.slot].generation == p.generation)
      && (p !in l.dead ==> up.entries[p.slot].depth + 1 == e.depth)
  {
    assert NodeOk(s, l, n) && SlotOk(s, l, n.table, n.slot);
    var p := l.born[n].lineage[1];
    assert NodeOk(s, l, p);
    assert SlotOk(s, l, p.table, p.slot);
  }

  lemma WalkStep<T>(w: World<T>, e: Entry<T>, p: Node<T>, hops: nat)
    requires p.table in w && p.slot < SLOTS && 0 < p.generation < U32
    requires e.parent == Some(p.table) && e.parentHandle == MakeHandle(p.slot, p.generation)
    requires 0 < e.depth <= MAX_DEPTH && hops < MAX_DEPTH
    ensures
      var up := w[p.table].entries[p.slot];
      Walk(w, e, hops) <==>
        && e.parentIncarnation == w[p.table].incarnation
        && up.active && up.generation == p.generation && up.depth + 1 == e.depth
        && Walk(w, up, hops + 1)
  {
    HandleRoundTrip(p.slot, p.generation);
  }

  /** From a live entry the walk succeeds just when nothing above it in its lineage is dead;
      `hops` plus what is left of the lineage never exceeds the 64-hop guard. */
  lemma {:induction false} WalkExact<T>(s: State<T>, l: Ledger<T>, n: Node<T>, hops: nat)
    requires Inv(s, l) && n in l.born && n !in l.dead
    requires hops + |l.born[n].lineage| <= MAX_DEPTH + 1
    ensures n.table in s.world && n.slot < SLOTS
    ensures Walk(s.world, s.world[n.table].entries[n.slot], hops)
            <==> forall m | m in l.born[n].lineage :: m !in l.dead
    decreases MAX_DEPTH - hops
  {
    hide Inv;
    NodeHeld(s, l, n);
    var lineage := l.born[n].lineage;
    if |lineage| > 1 {
      hide Walk;
      LinkExact(s, l, n);
      var p := lineage[1];
      WalkStep(s.world, s.world[n.table].entries[n.slot], p, hops);
      if p !in l.dead {
        NodeHeld(s, l, p);
        WalkExact(s, l, p, hops + 1);
      }
    }
  }

  lemma NodeHeld<T>(s: State<T>, l: Ledger<T>, n: Node<T>)
    requires Inv(s, l) && n in l.born && n !in l.dead
    ensures n.table in s.world && n.slot < SLOTS && 0 < n.generation < U32
    ensures Matches(s.world[n.table].entries[n.slot], l.born[n]) && l.born[n].lineage[0] == n
  {
    assert NodeOk(s, l, n) && SlotOk(s, l, n.table, n.slot);
  }

  lemma ValidateExact<T>(s: State<T>, l: Ledger<T>, t: T, h: u64)
    requires Inv(s, l)
    ensures Validate(s.world, t, h) == Ok <==> t in s.world && LineageAlive(l, NodeAt(l, t, h))
  {
    var n := NodeAt(l, t, h);
    if t in s.world {
      assert TableOk(s, l, t);
      if n in l.born {
        assert NodeOk(s, l, n);
        assert h != 0 && HandleGeneration(h) != 0;
        assert l.born[n].lineage[0] == n;
        if n !in l.dead {
          WalkExact(s, l, n, 0);
        } else {
          assert SlotOk(s, l, t, n.slot);
        }
      } else if HandleSlot(h) < SLOTS {
        assert SlotOk(s, l, t, HandleSlot(h));
      }
    }
  }

  // --- every operation keeps the invariant, and history is only ever added to ---

  ghost predicate Grows<T>(l: Ledger<T>, m: Ledger<T>) {
    && (forall n | n in l.born :: n in m.born && m.born[n] == l.born[n])
    && l.dead <= m.dead
  }

  function Put<T(==)>(s: State<T>, t: T, i: nat, e: Entry<T>): State<T>
    requires t in s.world && i < SLOTS
  {
    State(s.world[t := RawTable(s.world[t].incarnation, s.world[t].entries[i := e])], s.next)
  }

  function Record<T(==)>(l: Ledger<T>, n: Node<T>, b: Birth<T>): Ledger<T> {
    Ledger(l.epochs, l.clock, l.born[n := b], l.dead)
  }

  /** Slot `i` of `t` is free and `e`, born as `b`, may be put there. */
  ghost predicate Fits<T>(s: State<T>, l: Ledger<T>, t: T, i: nat, e: Entry<T>, b: Birth<T>) {
    && t in s.world && i < SLOTS
    && !s.world[t].entries[i].active && s.world[t].entries[i].generation != 0
    && e.active && e.generation == s.world[t].entries[i].generation
    && Matches(e, b) && ParentOk(l, b)
    && b.lineage[0] == Node(t, s.world[t].incarnation, i, e.generation)
  }

  lemma FreshNode<T>(s: State<T>, l: Ledger<T>, t: T, i: nat, e: Entry<T>, b: Birth<T>)
    requires Inv(s, l) && Fits(s, l, t, i, e, b)
    ensures b.lineage[0] !in l.born && b.lineage[0] !in l.dead
  {
    var n := b.lineage[0];
    assert n in l.born ==> NodeOk(s, l, n);
  }

  lemma ParentStays<T>(l: Ledger<T>, n: Node<T>, b: Birth<T>, c: Birth<T>)
    requires n !in l.born && ParentOk(l, c)
    ensures ParentOk(Record(l, n, b), c)
  {
  }

  lemma ActivateNode<T>(s: State<T>, l: Ledger<T>, t: T, i: nat, e: Entry<T>, b: Birth<T>, m: Node<T>)
    requires Inv(s, l) && Fits(s, l, t, i, e, b) && m in Record(l, b.lineage[0], b).born
    ensures NodeOk(Put(s, t, i, e), Record(l, b.lineage[0], b), m)
  {
    FreshNode(s, l, t, i, e, b);
    var n := b.lineage[0];
    if m == n {
      assert TableOk(s, l, t);
      ParentStays(l, n, b, b);
    } else {
      assert NodeOk(s, l, m);
      ParentStays(l, n, b, l.born[m]);
      var w', w := Put(s, t, i, e).world, s.world;
      assert w'[m.table].incarnation == w[m.table].incarnation;
      assert m.table != t || m.slot != i ==>
               w'[m.table].entries[m.slot] == w[m.table].entries[m.slot];
    }
  }

  lemma ActivateSlot<T>(s: State<T>, l: Ledger<T>, t: T, i: nat, e: Entry<T>, b: Birth<T>, u: T, k: nat)
    requires Inv(s, l) && Fits(s, l, t, i, e, b) && u in s.world && k < SLOTS
    ensures SlotOk(Put(s, t, i, e), Record(l, b.lineage[0], b), u, k)
  {
    FreshNode(s, l, t, i, e, b);
    assert SlotOk(s, l, u, k);
  }

  lemma ActivateKeeps<T>(s: State<T>, l: Ledger<T>, t: T, i: nat, e: Entry<T>, b: Birth<T>)
    requires Inv(s, l) && Fits(s, l, t, i, e, b)
    ensures Inv(Put(s, t, i, e), Record(l, b.lineage[0], b))
    ensures Grows(l, Record(l, b.lineage[0], b))
  {
    FreshNode(s, l, t, i, e, b);
    var s', l' := Put(s, t, i, e), Record(l, b.lineage[0], b);
    forall u | u in s'.world ensures TableOk(s', l', u) {
      assert TableOk(s, l, u);
    }
    forall u, k: nat | u in s'.world && k < SLOTS ensures SlotOk(s', l', u, k) {
      ActivateSlot(s, l, t, i, e, b, u, k);
    }
    forall m | m in l'.born ensures NodeOk(s', l', m) {
      ActivateNode(s, l, t, i, e, b, m);
    }
  }

  lemma RetireKeeps<T>(s: State<T>, l: Ledger<T>, t: T, slots: set<nat>, dead: set<Node<T>>)
    requires Retiring(s, l, t, slots, dead)
    ensures Inv(State(s.world[t := RetireSlots(s.world[t], slots)], s.next),
                Ledger(l.epochs, l.clock, l.born, dead))
  {
    var s' := State(s.world[t := RetireSlots(s.world[t], slots)], s.next);
    var l' := Ledger(l.epochs, l.clock, l.born, dead);
    hide TableOk, SlotOk, NodeOk, RetireSlots;
    forall u | u in s'.world ensures TableOk(s', l', u) {
      RetiredTable(s, l, t, slots, dead, u);
    }
    forall u, k: nat | u in s'.world && k < SLOTS ensures SlotOk(s', l', u, k) {
      RetiredSlot(s, l, t, slots, dead, u, k);
    }
    forall n | n in l'.born ensures NodeOk(s', l', n) {
      RetiredNode(s, l, t, slots, dead, n);
    }
  }

  /** The slots are active ones of table `t`, and just their nodes die. */
  ghost predicate Retiring<T>(s: State<T>, l: Ledger<T>, t: T, slots: set<nat>, dead: set<Node<T>>) {
    && Inv(s, l) && t in s.world
    && (forall i | i in slots :: i < SLOTS && s.world[t].entries[i].active)
    && l.dead <= dead <= l.born.Keys
    && forall n | n in l.born && n !in l.dead :: n in dead <==> n.table == t && n.slot in slots
  }

  lemma RetiredTable<T>(s: State<T>, l: Ledger<T>, t: T, slots: set<nat>, dead: set<Node<T>>, u: T)
    requires Retiring(s, l, t, slots, dead) && u in s.world
    ensures TableOk(State(s.world[t := RetireSlots(s.world[t], slots)], s.next),
                    Ledger(l.epochs, l.clock, l.born, dead), u)
  {
    assert TableOk(s, l, u);
    if u == t && l.epochs[t] == 0 {
      forall i | 0 <= i < SLOTS ensures i !in slots {
        assert SlotOk(s, l, t, i);
        assert i in slots ==> NodeOk(s, l, Node(t, 0, i, s.world[t].entries[i].generation));
      }
    }
  }

  lemma RetiredSlot<T>(s: State<T>, l: Ledger<T>, t: T, slots: set<nat>, dead: set<Node<T>>, u: T, k: nat)
    requires Retiring(s, l, t, slots, dead) && u in s.world && k < SLOTS
    ensures SlotOk(State(s.world[t := RetireSlots(s.world[t], slots)], s.next),
                   Ledger(l.epochs, l.clock, l.born, dead), u, k)
  {
    assert SlotOk(s, l, u, k);
  }

  lemma RetiredNode<T>(s: State<T>, l: Ledger<T>, t: T, slots: set<nat>, dead: set<Node<T>>, n: Node<T>)
    requires Retiring(s, l, t, slots, dead) && n in l.born
    ensures NodeOk(State(s.world[t := RetireSlots(s.world[t], slots)], s.next),
                   Ledger(l.epochs, l.clock, l.born, dead), n)
  {
    assert NodeOk(s, l, n);
    if n.table == t && n.slot in slots {
      assert SlotOk(s, l, t, n.slot);
      var live := Node(t, s.world[t].incarnation, n.slot, s.world[t].entries[n.slot].generation);
      assert NodeOk(s, l, live) && live !in l.dead;
      hide Inv, Retiring, ParentOk, Matches;
    } else {
      hide Inv, Retiring, ParentOk, Matches;
    }
  }

  lemma ResetKeeps<T>(s: State<T>, l: Ledger<T>, t: T, tb: Table<T>, next: u64, epoch: nat, clock: nat)
    requires Inv(s, l) && t in s.world
    requires tb.incarnation == epoch <= clock && next == clock + 1 && l.clock <= clock
    requires epoch == 0 || epoch > l.clock
    requires forall i | 0 <= i < SLOTS :: !tb.entries[i].active
    requires epoch == 0 ==> forall i | 0 <= i < SLOTS :: tb.entries[i].generation == 0
    ensures Inv(State(s.world[t := tb], next),
                Ledger(l.epochs[t := epoch], clock, l.born, l.dead + NodesIn(l, t)))
  {
    var s' := State(s.world[t := tb], next);
    var l' := Ledger(l.epochs[t := epoch], clock, l.born, l.dead + NodesIn(l, t));
    forall u | u in s'.world ensures TableOk(s', l', u) {
      assert TableOk(s, l, u);
    }
    forall u, k: nat | u in s'.world && k < SLOTS ensures SlotOk(s', l', u, k) {
      assert SlotOk(s, l, u, k);
    }
    forall n | n in l'.born ensures NodeOk(s', l', n) {
      assert NodeOk(s, l, n);
    }
  }

  /** A derivation hands out the child of a live node, or changes nothing. */
  lemma DeriveKeeps<T>(s: State<T>, l: Ledger<T>, t: T, source: u64, into: T, rights: Rights, crossing: bool)
    requires Inv(s, l)
    requires crossing || into == t
    ensures
      var (w', r) := Derive(s.world, t, source, into, rights, crossing);
      && Inv(State(w', s.next), ObserveDerived(l, t, source, into, rights, r))
      && Grows(l, ObserveDerived(l, t, source, into, rights, r))
  {
    var w := s.world;
    var (w', r) := Derive(w, t, source, into, rights, crossing);
    assert into in w ==> TableOk(s, l, into);
    hide Inv, Validate, Fits;
    if r.status == Ok {
      ValidateExact(s, l, t, source);
      var m := NodeAt(l, t, source);
      var i := FreeSlot(w[into], 0);
      var g := w[into].entries[i].generation;
      var n := Node(into, w[into].incarnation, i, g);
      var b := Birth([n] + l.born[m].lineage, l.born[m].obj, rights);
      var child := NewEntry(w, g, Held(w, t, source).obj, rights, ChildOf(Held(w, t, source), t, source));
      ChildFits(s, l, t, source, into, i, child, b);
      ActivateKeeps(s, l, into, i, child, b);
      HandleRoundTrip(i, g);
      assert State(w', s.next) == Put(s, into, i, child);
    } else {
      DeriveFailureKeepsWorld(s.world, t, source, into, rights, crossing);
    }
  }

  lemma ChildFits<T>(s: State<T>, l: Ledger<T>, t: T, source: u64, into: T, i: nat, e: Entry<T>, b: Birth<T>)
    requires Inv(s, l) && Validate(s.world, t, source) == Ok && NodeAt(l, t, source) in l.born
    requires NodeAt(l, t, source) !in l.dead
    requires into in s.world && i == FreeSlot(s.world[into], 0) < SLOTS
    requires
      var up := Held(s.world, t, source);
      var g := s.world[into].entries[i].generation;
      var m := NodeAt(l, t, source);
      && ChildOf(up, t, source).depth <= MAX_DEPTH && Contained(b.rights, up.rights)
      && e == NewEntry(s.world, g, up.obj, b.rights, ChildOf(up, t, source))
      && b == Birth([Node(into, s.world[into].incarnation, i, g)] + l.born[m].lineage, l.born[m].obj, b.rights)
    ensures Fits(s, l, into, i, e, b)
  {
    hide Inv, Validate, Matches, ParentOk, Contained;
    SourceHeld(s, l, t, source);
    ChildLinked(s.world, l, t, source, e.generation, Held(s.world, t, source), b);
  }

  lemma SourceHeld<T>(s: State<T>, l: Ledger<T>, t: T, source: u64)
    requires Inv(s, l) && Validate(s.world, t, source) == Ok
    requires NodeAt(l, t, source) in l.born && NodeAt(l, t, source) !in l.dead
    ensures
      var m := NodeAt(l, t, source);
      && m == Node(t, s.world[t].incarnation, HandleSlot(source), HandleGeneration(source))
      && Matches(Held(s.world, t, source), l.born[m]) && l.born[m].lineage[0] == m
  {
    hide Validate;
    NodeHeld(s, l, NodeAt(l, t, source));
    assert TableOk(s, l, t);
  }

  /** A child stored with the link of its source is the birth the ledger records. */
  lemma ChildLinked<T>(w: World<T>, l: Ledger<T>, t: T, source: u64, g: u32, up: Entry<T>, b: Birth<T>)
    requires t in w && HandleSlot(source) < SLOTS && |b.lineage| > 0
    requires
      var m := Node(t, w[t].incarnation, HandleSlot(source), HandleGeneration(source));
      && m in l.born && Matches(up, l.born[m]) && l.born[m].lineage[0] == m
      && ChildOf(up, t, source).depth <= MAX_DEPTH && Contained(b.rights, up.rights)
      && b == Birth([b.lineage[0]] + l.born[m].lineage, l.born[m].obj, b.rights)
    ensures Matches(NewEntry(w, g, up.obj, b.rights, ChildOf(up, t, source)), b) && ParentOk(l, b)
  {
    var m := Node(t, w[t].incarnation, HandleSlot(source), HandleGeneration(source));
    ChildMatches(w, up, l.born[m], t, source, b.lineage[0], g, b.rights);
    ChildBirthOk(l, m, b.lineage[0], b.rights);
  }

  lemma ChildMatches<T>(w: World<T>, up: Entry<T>, bm: Birth<T>, t: T, source: u64,
                        n: Node<T>, g: u32, rights: Rights)
    requires t in w && HandleSlot(source) < SLOTS && Matches(up, bm) && |bm.lineage| <= MAX_DEPTH
    requires bm.lineage[0] == Node(t, w[t].incarnation, HandleSlot(source), HandleGeneration(source))
    ensures Matches(NewEntry(w, g, up.obj, rights, ChildOf(up, t, source)),
                    Birth([n] + bm.lineage, bm.obj, rights))
  {
    HandleParts(source);
    assert ([n] + bm.lineage)[1] == bm.lineage[0];
  }

  lemma ChildBirthOk<T>(l: Ledger<T>, m: Node<T>, n: Node<T>, rights: Rights)
    requires m in l.born && |l.born[m].lineage| > 0 && l.born[m].lineage[0] == m
    requires Contained(rights, l.born[m].rights)
    ensures var b := Birth([n] + l.born[m].lineage, l.born[m].obj, rights);
            b.lineage[1] == m && ParentOk(l, b)
  {
    var b := Birth([n] + l.born[m].lineage, l.born[m].obj, rights);
    assert b.lineage[1..] == l.born[m].lineage;
  }

  lemma HandleParts(h: u64)
    requires HandleSlot(h) < SLOTS
    ensures MakeHandle(HandleSlot(h), HandleGeneration(h)) == h
  {
  }

  lemma DeriveFailureKeepsWorld<T>(w: World<T>, t: T, source: u64, into: T, rights: Rights, crossing: bool)
    requires Derive(w, t, source, into, rights, crossing).1.status != Ok
    ensures Derive(w, t, source, into, rights, crossing).0 == w
  {
  }

  lemma MintKeeps<T>(s: State<T>, l: Ledger<T>, t: T, obj: u64, rights: Rights)
    requires Inv(s, l)
    ensures
      var (s', r) := Step(s, Mint(t, obj, rights));
      Inv(s', Observe(l, Mint(t, obj, rights), r)) && Grows(l, Observe(l, Mint(t, obj, rights), r))
  {
    var (s', r) := Step(s, Mint(t, obj, rights));
    if r.status == Ok {
      assert TableOk(s, l, t);
      var i := FreeSlot(s.world[t], 0);
      var g := s.world[t].entries[i].generation;
      HandleRoundTrip(i, g);
      var n := Node(t, s.world[t].incarnation, i, g);
      ActivateKeeps(s, l, t, i, NewEntry(s.world, g, obj, rights, Root), Birth([n], obj, rights));
    }
  }

  lemma RevokeKeeps<T>(s: State<T>, l: Ledger<T>, t: T, h: u64)
    requires Inv(s, l)
    ensures
      var (s', r) := Step(s, Revoke(t, h));
      Inv(s', Observe(l, Revoke(t, h), r)) && Grows(l, Observe(l, Revoke(t, h), r))
  {
    var (s', r) := Step(s, Revoke(t, h));
    if r.status == Ok {
      ValidateExact(s, l, t, h);
      var m := NodeAt(l, t, h);
      forall n | n in l.born && n !in l.dead && n.table == t && n.slot == m.slot ensures n == m {
        assert NodeOk(s, l, n) && NodeOk(s, l, m);
        assert l.born[m].lineage[0] == m;
      }
      assert l.born[m].lineage[0] == m by { assert NodeOk(s, l, m); }
      RetireKeeps(s, l, t, {HandleSlot(h)}, l.dead + {m});
    }
  }

  lemma LiveNodeSlot<T>(s: State<T>, l: Ledger<T>, n: Node<T>)
    requires Inv(s, l) && n in l.born && n !in l.dead
    ensures n.table in s.world && n.slot in ActiveSlots(s.world[n.table])
    ensures s.world[n.table].entries[n.slot].obj == l.born[n].obj
  {
    NodeHeld(s, l, n);
    assert NodeOk(s, l, n);
  }

  lemma ObjectRetired<T>(s: State<T>, l: Ledger<T>, t: T, obj: u64)
    requires Inv(s, l) && t in s.world && obj != 0
    ensures Inv(State(RevokeObjectIn(s.world, t, obj).0, s.next),
                Ledger(l.epochs, l.clock, l.born, l.dead + NodesNaming(l, t, obj)))
  {
    forall n | n in l.born && n !in l.dead
      ensures n in NodesNaming(l, t, obj) <==> n.table == t && n.slot in SlotsNaming(s.world[t], obj)
    {
      LiveNodeSlot(s, l, n);
    }
    RetireKeeps(s, l, t, SlotsNaming(s.world[t], obj), l.dead + NodesNaming(l, t, obj));
  }

  lemma AllRetired<T>(s: State<T>, l: Ledger<T>, t: T)
    requires Inv(s, l) && t in s.world
    ensures Inv(State(RevokeAllIn(s.world, t), s.next),
                Ledger(l.epochs, l.clock, l.born, l.dead + NodesIn(l, t)))
  {
    forall n | n in l.born && n !in l.dead
      ensures n in NodesIn(l, t) <==> n.table == t && n.slot in ActiveSlots(s.world[t])
    {
      LiveNodeSlot(s, l, n);
    }
    RetireKeeps(s, l, t, ActiveSlots(s.world[t]), l.dead + NodesIn(l, t));
  }

  lemma NoNodesElsewhere<T>(s: State<T>, l: Ledger<T>, t: T, obj: u64)
    requires Inv(s, l) && t !in s.world
    ensures NodesIn(l, t) == {} && NodesNaming(l, t, obj) == {}
  {
    forall n | n in l.born ensures n.table != t { assert NodeOk(s, l, n); }
    assert NodesNaming(l, t, obj) <= NodesIn(l, t);
  }

  lemma BulkRetireKeeps<T>(s: State<T>, l: Ledger<T>, op: Op<T>)
    requires Inv(s, l) && (op.RevokeObject? || op.RevokeAll?)
    ensures var (s', r) := Step(s, op); Inv(s', Observe(l, op, r)) && Grows(l, Observe(l, op, r))
  {
    if op.t !in s.world {
      NoNodesElsewhere(s, l, op.t, if op.RevokeObject? then op.obj else 0);
      assert Observe(l, op, Step(s, op).1) == l;
    } else if op.RevokeAll? {
      AllRetired(s, l, op.t);
    } else if op.obj != 0 {
      ObjectRetired(s, l, op.t, op.obj);
    }
  }

  lemma InitKeeps<T>(s: State<T>, l: Ledger<T>, op: Op<T>)
    requires Inv(s, l) && op.Init? && s.next + 1 < U64
    ensures var (s', r) := Step(s, op); Inv(s', Observe(l, op, r)) && Grows(l, Observe(l, op, r))
  {
    var t := op.t;
    if t in s.world {
      assert s.next == l.clock + 1 && t in l.epochs && l.dead <= l.born.Keys;
      hide Inv;
      ResetKeeps(s, l, t, FreshTable(s.next), s.next + 1, l.clock + 1, l.clock + 1);
    }
  }

  lemma StepKeeps<T>(s: State<T>, l: Ledger<T>, op: Op<T>)
    requires Inv(s, l) && s.next + (if op.Init? then 1 else 0) < U64
    ensures var (s', r) := Step(s, op); Inv(s', Observe(l, op, r)) && Grows(l, Observe(l, op, r))
  {
    match op
    case Init(_) => InitKeeps(s, l, op);
    case Clear(t) =>
      if t in s.world { ResetKeeps(s, l, t, ZeroTable(), s.next, 0, l.clock); }
    case Mint(t, obj, rights) => MintKeeps(s, l, t, obj, rights);
    case Restrict(t, source, rights) => DeriveKeeps(s, l, t, source, t, rights, false);
    case Transfer(t, source, into, rights) => DeriveKeeps(s, l, t, source, into, rights, true);
    case Revoke(t, h) => RevokeKeeps(s, l, t, h);
    case RevokeObject(_, _) => BulkRetireKeeps(s, l, op);
    case RevokeAll(_) => BulkRetireKeeps(s, l, op);
  }

  lemma StepCounter<T>(s: State<T>, op: Op<T>)
    requires 1 <= s.next && s.next + (if op.Init? then 1 else 0) < U64
    ensures 1 <= Step(s, op).0.next <= s.next + if op.Init? then 1 else 0
  {
  }

  lemma {:induction false} RunKeeps<T>(s: State<T>, l: Ledger<T>, ops: seq<Op<T>>)
    requires Inv(s, l) && s.next + Inits(ops) < U64
    ensures var (s', l') := Run(s, l, ops); Inv(s', l') && Grows(l, l') && s'.world.Keys == s.world.Keys
    decreases |ops|
  {
    if ops != [] {
      StepKeeps(s, l, ops[0]);
      StepCounter(s, ops[0]);
      var (s1, r) := Step(s, ops[0]);
      RunKeeps(s1, Observe(l, ops[0], r), ops[1..]);
    }
  }

  lemma {:induction false} RunSplits<T>(s: State<T>, l: Ledger<T>, before: seq<Op<T>>, after: seq<Op<T>>)
    ensures var (s1, l1) := Run(s, l, before); Run(s, l, before + after) == Run(s1, l1, after)
    ensures Inits(before + after) == Inits(before) + Inits(after)
    decreases |before|
  {
    if before == [] {
      assert before + after == after;
    } else {
      assert (before + after)[1..] == before[1..] + after;
      var (s1, r) := Step(s, before[0]);
      RunSplits(s1, Observe(l, before[0], r), before[1..], after);
    }
  }

  // --- the promises, over every run from boot ---

  function Reach<T(==)>(ts: set<T>, ops: seq<Op<T>>): (r: (State<T>, Ledger<T>))
    ensures r.0.world.Keys == ts
  {
    var (s, l) := Boot(ts);
    Run(s, l, ops)
  }

  lemma ReachKeeps<T>(ts: set<T>, ops: seq<Op<T>>)
    requires Inits(ops) < U64 - 1
    ensures var (s, l) := Reach(ts, ops); Inv(s, l) && s.world.Keys == ts
  {
    var (s, l) := Boot(ts);
    RunKeeps(s, l, ops);
  }

  /** The lazy walk is exact: it accepts a handle just when the handle was issued in the current
      incarnation of its table and nothing in its recorded lineage was ever retired. */
  lemma ValidExactlyWhenLineageAlive<T>(ts: set<T>, ops: seq<Op<T>>, t: T, h: u64)
    requires Inits(ops) < U64 - 1
    ensures var (s, l) := Reach(ts, ops);
            Validate(s.world, t, h) == Ok <==> t in ts && LineageAlive(l, NodeAt(l, t, h))
  {
    ReachKeeps(ts, ops);
    var (s, l) := Reach(ts, ops);
    ValidateExact(s, l, t, h);
  }

  /** Revocation is permanent: once some ancestor is retired, no later run of operations, slot
      reuse and re-initialisation of the ancestor's table included, revives the descendant. */
  lemma RetiredForever<T>(ts: set<T>, before: seq<Op<T>>, after: seq<Op<T>>,
                          ancestor: Node<T>, t: T, h: u64)
    requires Inits(before + after) < U64 - 1
    requires
      var (_, l) := Reach(ts, before);
      var (_, l') := Reach(ts, before + after);
      var n := NodeAt(l', t, h);
      n in l.born && ancestor in l.born[n].lineage && ancestor in l.dead
    ensures var (s', _) := Reach(ts, before + after); Validate(s'.world, t, h) != Ok
  {
    ReachGrows(ts, before, after);
    ValidExactlyWhenLineageAlive(ts, before + after, t, h);
    StaysRetired(Reach(ts, before).1, Reach(ts, before + after).1,
                 NodeAt(Reach(ts, before + after).1, t, h), ancestor);
  }

  lemma BootOk<T>(ts: set<T>)
    ensures Inv(Boot(ts).0, Boot(ts).1) && Boot(ts).0.next == 1
  {
  }

  lemma ReachGrows<T>(ts: set<T>, before: seq<Op<T>>, after: seq<Op<T>>)
    requires Inits(before + after) < U64 - 1
    ensures Grows(Reach(ts, before).1, Reach(ts, before + after).1)
  {
    var (s0, l0) := Boot(ts);
    BootOk(ts);
    hide Inv, Grows, Run, Boot;
    RunSplits(s0, l0, before, after);
    RunCounter(s0, l0, before);
    ReachKeeps(ts, before);
    var (s, l) := Reach(ts, before);
    RunKeeps(s, l, after);
  }

  lemma StaysRetired<T>(l: Ledger<T>, later: Ledger<T>, n: Node<T>, ancestor: Node<T>)
    requires Grows(l, later) && n in l.born && ancestor in l.born[n].lineage && ancestor in l.dead
    ensures !LineageAlive(later, n)
  {
    assert ancestor in later.born[n].lineage;
  }

  lemma {:induction false} RunCounter<T>(s: State<T>, l: Ledger<T>, ops: seq<Op<T>>)
    requires Inv(s, l) && s.next + Inits(ops) < U64
    ensures Run(s, l, ops).0.next <= s.next + Inits(ops)
    decreases |ops|
  {
    if ops != [] {
      StepKeeps(s, l, ops[0]);
      StepCounter(s, ops[0]);
      var (s1, r) := Step(s, ops[0]);
      RunCounter(s1, Observe(l, ops[0], r), ops[1..]);
    }
  }

  // --- authority along a lineage ---

  lemma SubRightsTrans(a: Rights, b: Rights, c: Rights)
    requires Contained(a, b) && Contained(b, c)
    ensures Contained(a, c)
  {
    assert a & !c == ((a & !b) & !c) | ((a & b) & !c);
    assert (a & b) & !c == a & (b & !c);
  }

  /** Every node of a lineage was born with the lineage's remaining tail, the same object and at
      least the rights of everything below it; so tails shrink and no node repeats. */
  lemma {:induction false} LineageTail<T>(s: State<T>, l: Ledger<T>, n: Node<T>, k: nat)
    requires Inv(s, l) && n in l.born && k < |l.born[n].lineage|
    ensures
      var m := l.born[n].lineage[k];
      && m in l.born && l.born[m].lineage == l.born[n].lineage[k..]
      && l.born[m].obj == l.born[n].obj && Contained(l.born[n].rights, l.born[m].rights)
  {
    assert NodeOk(s, l, n);
    var lineage := l.born[n].lineage;
    if k == 0 {
      assert lineage[0..] == lineage;
      SelfContained(l.born[n].rights);
    } else {
      LineageTail(s, l, n, k - 1);
      LineageUp(s, l, lineage[k - 1]);
      assert lineage[k - 1..][1..] == lineage[k..];
      assert lineage[k - 1..][1] == lineage[k];
      SubRightsTrans(l.born[n].rights, l.born[lineage[k - 1]].rights, l.born[lineage[k]].rights);
    }
  }

  lemma LineageUp<T>(s: State<T>, l: Ledger<T>, m: Node<T>)
    requires Inv(s, l) && m in l.born
    ensures ParentOk(l, l.born[m])
  {
    assert NodeOk(s, l, m);
  }

  lemma SelfContained(r: Rights)
    ensures Contained(r, r)
  {
  }

  /** A successful lookup names the object of the root mint and carries no right that some
      ancestor lacked; the lineage is acyclic, at most 65 long, and its length is the stored depth. */
  lemma AuthorityConfined<T>(ts: set<T>, ops: seq<Op<T>>, t: T, h: u64, required: Rights)
    requires Inits(ops) < U64 - 1
    requires var (s, l) := Reach(ts, ops); Lookup(s.world, t, h, required).status == Ok
    ensures
      var (s, l) := Reach(ts, ops);
      var n := NodeAt(l, t, h);
      var found := Lookup(s.world, t, h, required);
      && n in l.born && 1 <= |l.born[n].lineage| <= MAX_DEPTH + 1
      && Contained(required, found.rights) && found.rights == l.born[n].rights
      && Held(s.world, t, h).depth == |l.born[n].lineage| - 1
      && (forall m | m in l.born[n].lineage ::
            m in l.born && found.obj == l.born[m].obj && Contained(found.rights, l.born[m].rights))
      && (forall i, j | 0 <= i < j < |l.born[n].lineage| ::
            l.born[n].lineage[i] != l.born[n].lineage[j])
  {
    ReachKeeps(ts, ops);
    var (s, l) := Reach(ts, ops);
    ValidateExact(s, l, t, h);
    var n := NodeAt(l, t, h);
    var lineage := l.born[n].lineage;
    HeldMatches(s, l, t, h);
    RequiredHeld(required, Held(s.world, t, h).rights);
    forall k | 0 <= k < |lineage|
      ensures lineage[k] in l.born && l.born[lineage[k]].obj == l.born[n].obj
      ensures Contained(l.born[n].rights, l.born[lineage[k]].rights)
      ensures |l.born[lineage[k]].lineage| == |lineage| - k
    {
      LineageTail(s, l, n, k);
    }
  }

  lemma RequiredHeld(required: Rights, held: Rights)
    requires held & required == required
    ensures Contained(required, held)
  {
  }

  /** The source of a derivation, alive and with enough rights. */
  ghost predicate MayDerive<T>(l: Ledger<T>, m: Node<T>, rights: Rights, crossing: bool) {
    && LineageAlive(l, m) && Known(rights) && Contained(rights, l.born[m].rights)
    && (crossing ==> l.born[m].rights & TRANSFER != 0)
  }

  lemma HeldMatches<T>(s: State<T>, l: Ledger<T>, t: T, h: u64)
    requires Inv(s, l) && t in s.world && LineageAlive(l, NodeAt(l, t, h))
    ensures Validate(s.world, t, h) == Ok && Matches(Held(s.world, t, h), l.born[NodeAt(l, t, h)])
  {
    ValidateExact(s, l, t, h);
    var m := NodeAt(l, t, h);
    assert NodeOk(s, l, m) && TableOk(s, l, t) && SlotOk(s, l, t, m.slot);
    assert l.born[m].lineage[0] == m;
  }

  lemma DeriveExactAt<T>(s: State<T>, l: Ledger<T>, t: T, source: u64, into: T, rights: Rights, crossing: bool)
    requires Inv(s, l) && t in s.world && into in s.world
    requires MayDerive(l, NodeAt(l, t, source), rights, crossing)
    ensures Derive(s.world, t, source, into, rights, crossing).1.status ==
              if |l.born[NodeAt(l, t, source)].lineage| == MAX_DEPTH + 1 then Inval
              else if FreeSlot(s.world[into], 0) == SLOTS then NoMemory
              else Ok
  {
    HeldMatches(s, l, t, source);
    DeriveStatus(s.world, t, source, into, rights, crossing);
  }

  lemma DeriveStatus<T>(w: World<T>, t: T, source: u64, into: T, rights: Rights, crossing: bool)
    requires into in w && Known(rights) && Validate(w, t, source) == Ok
    requires
      var e := Held(w, t, source);
      && e.obj != 0 && e.depth <= MAX_DEPTH && Contained(rights, e.rights)
      && (crossing ==> e.rights & TRANSFER != 0)
    ensures Derive(w, t, source, into, rights, crossing).1.status ==
              if Held(w, t, source).depth == MAX_DEPTH then Inval
              else if FreeSlot(w[into], 0) == SLOTS then NoMemory
              else Ok
  {
    hide Validate, Known, Contained, FreeSlot, MakeHandle;
  }

  /** Depth is the only bound on derivation besides space: from a live source with enough rights
      it fails exactly when the chain already has 65 members or the target table is full. */
  lemma DeriveExact<T>(ts: set<T>, ops: seq<Op<T>>, t: T, source: u64, into: T, rights: Rights, crossing: bool)
    requires Inits(ops) < U64 - 1 && t in ts && into in ts
    requires var (s, l) := Reach(ts, ops); MayDerive(l, NodeAt(l, t, source), rights, crossing)
    ensures
      var (s, l) := Reach(ts, ops);
      Derive(s.world, t, source, into, rights, crossing).1.status ==
        if |l.born[NodeAt(l, t, source)].lineage| == MAX_DEPTH + 1 then Inval
        else if FreeSlot(s.world[into], 0) == SLOTS then NoMemory
        else Ok
  {
    ReachKeeps(ts, ops);
    var (s, l) := Reach(ts, ops);
    DeriveExactAt(s, l, t, source, into, rights, crossing);
  }

  /** Revoking a handle ends exactly its own subtree, in every table. */
  lemma RevokeEndsExactlyTheSubtree<T>(ts: set<T>, ops: seq<Op<T>>, t: T, h: u64, u: T, k: u64)
    requires Inits(ops) < U64 - 1 && t in ts && u in ts
    requires Step(Reach(ts, ops).0, Revoke(t, h)).1.status == Ok
    ensures
      var (s, l) := Reach(ts, ops);
      var s' := Step(s, Revoke(t, h)).0;
      Validate(s'.world, u, k) == Ok <==>
        && Validate(s.world, u, k) == Ok && NodeAt(l, u, k) in l.born
        && NodeAt(l, t, h) !in l.born[NodeAt(l, u, k)].lineage
  {
    ReachKeeps(ts, ops);
    var (s, l) := Reach(ts, ops);
    var (s', r) := Step(s, Revoke(t, h));
    StepKeeps(s, l, Revoke(t, h));
    ValidateExact(s, l, u, k);
    ValidateExact(s', Observe(l, Revoke(t, h), r), u, k);
  }

  lemma LineageObjects<T>(s: State<T>, l: Ledger<T>, n: Node<T>)
    requires Inv(s, l) && n in l.born
    ensures forall m | m in l.born[n].lineage :: m in l.born && l.born[m].obj == l.born[n].obj
  {
    var lineage := l.born[n].lineage;
    forall m | m in lineage ensures m in l.born && l.born[m].obj == l.born[n].obj {
      var i :| 0 <= i < |lineage| && lineage[i] == m;
      LineageTail(s, l, n, i);
    }
  }

  /** Retiring an object in one table ends exactly the lineages of that object that pass through
      that table. */
  lemma RevokeObjectEndsItsLineages<T>(ts: set<T>, ops: seq<Op<T>>, t: T, obj: u64, u: T, k: u64)
    requires Inits(ops) < U64 - 1 && t in ts && u in ts && obj != 0
    ensures
      var (s, l) := Reach(ts, ops);
      Validate(RevokeObjectIn(s.world, t, obj).0, u, k) == Ok <==>
        && Validate(s.world, u, k) == Ok && NodeAt(l, u, k) in l.born
        && (l.born[NodeAt(l, u, k)].obj == obj ==>
              forall m | m in l.born[NodeAt(l, u, k)].lineage :: m.table != t)
  {
    ReachKeeps(ts, ops);
    var (s, l) := Reach(ts, ops);
    ObjectRetired(s, l, t, obj);
    var l' := Ledger(l.epochs, l.clock, l.born, l.dead + NodesNaming(l, t, obj));
    ValidateExact(s, l, u, k);
    ValidateExact(State(RevokeObjectIn(s.world, t, obj).0, s.next), l', u, k);
    var n := NodeAt(l, u, k);
    if n in l.born {
      LineageObjects(s, l, n);
    }
  }
}
