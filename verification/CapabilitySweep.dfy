/** What destroying an object does to the capabilities that name it: the kernel retires them in one
    process table after another, before the object's slot can be used again. */
module CapabilitySweep {
  import opened Words
  import opened CapabilityModel
  import opened CapabilityLineage

  /** One table after the other. */
  function Sweep<T>(order: seq<T>, obj: u64): (ops: seq<Op<T>>)
    ensures |ops| == |order|
  {
    seq(|order|, i requires 0 <= i < |order| => RevokeObject(order[i], obj))
  }

  lemma {:induction false} SweepInits<T>(order: seq<T>, obj: u64)
    ensures Inits(Sweep(order, obj)) == 0
  {
    if order != [] {
      SweepInits(order[1..], obj);
      assert Sweep(order, obj)[1..] == Sweep(order[1..], obj);
    }
  }

  /** Only the swept tables change: what they issued for the object is retired. */
  lemma {:induction false} SweepRetires<T>(s: State<T>, l: Ledger<T>, order: seq<T>, obj: u64)
    requires obj != 0
    ensures var l' := Run(s, l, Sweep(order, obj)).1;
            && l'.born == l.born && l.dead <= l'.dead
            && forall n <- l.born :: n.table in order && l.born[n].obj == obj ==> n in l'.dead
    decreases |order|
  {
    if order != [] {
      var op := RevokeObject(order[0], obj);
      var (s1, r) := Step(s, op);
      assert Sweep(order, obj)[1..] == Sweep(order[1..], obj);
      SweepRetires(s1, Observe(l, op, r), order[1..], obj);
      forall n <- l.born | n.table in order && l.born[n].obj == obj
        ensures n in Run(s, l, Sweep(order, obj)).1.dead
      {
        assert n.table == order[0] || n.table in order[1..];
      }
    }
  }

  /** The tables left out of the sweep hold nothing that names the object, as a process slot that is
      not in use holds nothing at all. */
  ghost predicate SweptAll<T(!new)>(w: World<T>, order: seq<T>, obj: u64) {
    forall t <- w :: t !in order ==> SlotsNaming(w[t], obj) == {}
  }

  lemma LiveIsNamed<T>(s: State<T>, l: Ledger<T>, n: Node<T>)
    requires Inv(s, l) && n in l.born && n !in l.dead
    ensures n.table in s.world && n.slot in SlotsNaming(s.world[n.table], l.born[n].obj)
  {
    LiveNodeSlot(s, l, n);
  }

  lemma SweptIsDead<T(!new)>(s: State<T>, l: Ledger<T>, order: seq<T>, obj: u64, n: Node<T>)
    requires Inv(s, l) && obj != 0 && SweptAll(s.world, order, obj) && n in l.born && l.born[n].obj == obj
    ensures n in Run(s, l, Sweep(order, obj)).1.dead
  {
    SweepRetires(s, l, order, obj);
    if n.table !in order {
      hide SlotsNaming;
      if n !in l.dead {
        LiveIsNamed(s, l, n);
      }
    }
  }

  lemma NewLineage<T(!new)>(s: State<T>, l1: Ledger<T>, l: Ledger<T>, n: Node<T>, obj: u64)
    requires Inv(s, l) && Grows(l1, l) && LineageAlive(l, n) && l.born[n].obj == obj
    requires forall m <- l1.born :: l1.born[m].obj == obj ==> m in l1.dead
    ensures forall m <- l.born[n].lineage :: m !in l1.born
  {
    forall m | m in l.born[n].lineage ensures m !in l1.born {
      var k :| 0 <= k < |l.born[n].lineage| && l.born[n].lineage[k] == m;
      LineageTail(s, l, n, k);
    }
  }

  lemma HeldIsBorn<T>(s: State<T>, l: Ledger<T>, t: T, h: u64)
    requires Inv(s, l) && Validate(s.world, t, h) == Ok && LineageAlive(l, NodeAt(l, t, h))
    ensures Held(s.world, t, h).obj == l.born[NodeAt(l, t, h)].obj
  {
    var n := NodeAt(l, t, h);
    LineageTail(s, l, n, 0);
    assert n == l.born[n].lineage[0] by { assert NodeOk(s, l, n); }
    NodeHeld(s, l, n);
  }

  /** After the sweep everything that was handed out for the object is dead. */
  lemma SweepSettles<T(!new)>(ts: set<T>, before: seq<Op<T>>, order: seq<T>, obj: u64)
    requires Inits(before) < U64 - 1 && obj != 0
    requires SweptAll(Reach(ts, before).0.world, order, obj)
    ensures var l1 := Reach(ts, before + Sweep(order, obj)).1;
            forall m <- l1.born :: l1.born[m].obj == obj ==> m in l1.dead
  {
    var (s0, l0) := Boot(ts);
    RunSplits(s0, l0, before, Sweep(order, obj));
    ReachKeeps(ts, before);
    var (sb, lb) := Reach(ts, before);
    var l1 := Reach(ts, before + Sweep(order, obj)).1;
    SweepRetires(sb, lb, order, obj);
    hide Inv, Run, SweptAll;
    forall m <- l1.born | l1.born[m].obj == obj ensures m in l1.dead {
      SweptIsDead(sb, lb, order, obj, m);
    }
  }

  /** Once the sweep is over, a handle that reaches the object again, in any table and after any
      later run, descends only from capabilities handed out after the sweep: whatever named the
      object before is dead for good, even if the object's slot is reused. */
  lemma DestroyedObjectEndsItsHandles<T(!new)>(ts: set<T>, before: seq<Op<T>>, order: seq<T>, obj: u64,
                                               after: seq<Op<T>>, t: T, h: u64)
    requires Inits(before) + Inits(after) < U64 - 1 && obj != 0
    requires SweptAll(Reach(ts, before).0.world, order, obj)
    ensures
      var (_, l1) := Reach(ts, before + Sweep(order, obj));
      var (s, l) := Reach(ts, before + Sweep(order, obj) + after);
      Validate(s.world, t, h) == Ok && Held(s.world, t, h).obj == obj ==>
        var n := NodeAt(l, t, h);
        n in l.born && forall m <- l.born[n].lineage :: m !in l1.born
  {
    hide Inv, Grows, Run, Validate, SweptAll, Sweep, Reach;
    var swept := before + Sweep(order, obj);
    var (s0, l0) := Boot(ts);
    SweepInits(order, obj);
    RunSplits(s0, l0, before, Sweep(order, obj));
    RunSplits(s0, l0, swept, after);
    ReachKeeps(ts, swept + after);
    ReachGrows(ts, swept, after);
    SweepSettles(ts, before, order, obj);
    var (_, l1) := Reach(ts, swept);
    var (s, l) := Reach(ts, swept + after);
    if Validate(s.world, t, h) == Ok && Held(s.world, t, h).obj == obj {
      ValidateExact(s, l, t, h);
      HeldIsBorn(s, l, t, h);
      NewLineage(s, l1, l, NodeAt(l, t, h), obj);
    }
  }

  // --- without minting it again ---

  ghost predicate NamedNowhere<T(!new)>(w: World<T>, obj: u64) {
    forall t, i: nat | t in w && i < SLOTS :: w[t].entries[i].active ==> w[t].entries[i].obj != obj
  }

  lemma StepNames<T(!new)>(s: State<T>, op: Op<T>, obj: u64)
    requires NamedNowhere(s.world, obj) && !(op.Mint? && op.obj == obj)
    ensures NamedNowhere(Step(s, op).0.world, obj)
  {
    hide Walk;
  }

  lemma {:induction false} RunNames<T(!new)>(s: State<T>, l: Ledger<T>, ops: seq<Op<T>>, obj: u64)
    requires NamedNowhere(s.world, obj) && forall i | 0 <= i < |ops| :: !(ops[i].Mint? && ops[i].obj == obj)
    ensures NamedNowhere(Run(s, l, ops).0.world, obj)
    decreases |ops|
  {
    if ops != [] {
      hide NamedNowhere, Step;
      StepNames(s, ops[0], obj);
      var (s1, r) := Step(s, ops[0]);
      RunNames(s1, Observe(l, ops[0], r), ops[1..], obj);
    }
  }

  lemma {:induction false} SweepNames<T(!new)>(s: State<T>, l: Ledger<T>, order: seq<T>, obj: u64)
    requires obj != 0 && SweptAll(s.world, order, obj)
    ensures NamedNowhere(Run(s, l, Sweep(order, obj)).0.world, obj)
    decreases |order|
  {
    if order == [] {
      forall t, i: nat | t in s.world && i < SLOTS && s.world[t].entries[i].active
        ensures s.world[t].entries[i].obj != obj
      {
        assert SlotsNaming(s.world[t], obj) == {};
        assert i !in SlotsNaming(s.world[t], obj);
      }
    } else {
      var op := RevokeObject(order[0], obj);
      var (s1, r) := Step(s, op);
      assert Sweep(order, obj)[1..] == Sweep(order[1..], obj);
      forall t <- s1.world | t !in order[1..] ensures SlotsNaming(s1.world[t], obj) == {} {
        assert t != order[0] ==> t !in order;
      }
      SweepNames(s1, Observe(l, op, r), order[1..], obj);
    }
  }

  /** The destroyed object is reached again exactly by minting it anew, as creating an endpoint in
      the reused slot or restarting a process from its saved capabilities does: without a mint no
      handle reaches it after any run, and a mint that succeeds gives one that does. */
  lemma DestroyedObjectComesBackOnlyByMinting<T(!new)>(ts: set<T>, before: seq<Op<T>>, order: seq<T>, obj: u64,
                                                       after: seq<Op<T>>, t: T, h: u64, rights: Rights)
    requires obj != 0 && SweptAll(Reach(ts, before).0.world, order, obj)
    ensures
      var s := Reach(ts, before + Sweep(order, obj) + after).0;
      && ((forall i | 0 <= i < |after| :: !(after[i].Mint? && after[i].obj == obj)) ==>
            !(Validate(s.world, t, h) == Ok && Held(s.world, t, h).obj == obj))
      && (var (s', r) := Step(s, Mint(t, obj, rights));
          r.status == Ok ==>
            Validate(s'.world, t, r.handle) == Ok && Held(s'.world, t, r.handle).obj == obj)
  {
    var (s0, l0) := Boot(ts);
    RunSplits(s0, l0, before, Sweep(order, obj));
    RunSplits(s0, l0, before + Sweep(order, obj), after);
    var (sb, lb) := Reach(ts, before);
    var (s1, l1) := Reach(ts, before + Sweep(order, obj));
    SweepNames(sb, lb, order, obj);
    if forall i | 0 <= i < |after| :: !(after[i].Mint? && after[i].obj == obj) {
      RunNames(s1, l1, after, obj);
    }
    var s := Reach(ts, before + Sweep(order, obj) + after).0;
    MintReaches(s, t, obj, rights);
    hide Run, Reach, Step;
  }

  lemma MintReaches<T(!new)>(s: State<T>, t: T, obj: u64, rights: Rights)
    ensures var (s', r) := Step(s, Mint(t, obj, rights));
            r.status == Ok ==>
              Validate(s'.world, t, r.handle) == Ok && Held(s'.world, t, r.handle).obj == obj
  {
    if Step(s, Mint(t, obj, rights)).1.status == Ok {
      var i := FreeSlot(s.world[t], 0);
      HandleRoundTrip(i, s.world[t].entries[i].generation);
    }
  }
}
