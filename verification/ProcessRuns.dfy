/** What every operation on the process table keeps: the forest, at most one running process, the
    live count, and for ever-reaped ids that they stay reaped. */
module ProcessRuns {
  import opened Words
  import opened ProcessModel
  import opened ProcessForest

  datatype Op =
    | Create(spec: Spec)
    | Schedule
    | Yield
    | Exit(id: u64, code: int)
    | Terminate(parent: u64, group: u64, code: int, tree: bool)
    | GroupFreeze(parent: u64, group: u64)
    | GroupResume(parent: u64, group: u64)
    | CancelIpc(id: u64)
    | Pause(actor: u64)
    | Resume(actor: u64)
    | Restart(id: u64, minted: bool)
    | Reap(parent: u64, child: u64)

  /** The table after `op`, and the id a creation handed out (zero otherwise). */
  function Step(t: Table, op: Op): (Table, u64) {
    match op
    case Create(spec) => var (_, t', id) := ProcessModel.Create(t, spec); (t', id)
    case Schedule => (ProcessModel.Schedule(t).1, 0)
    case Yield => (ProcessModel.Yield(t).1, 0)
    case Exit(id, code) => (ProcessModel.Exit(t, id, code).1, 0)
    case Terminate(parent, group, code, tree) => (ProcessModel.Terminate(t, parent, group, code, tree).1, 0)
    case GroupFreeze(parent, group) => (GroupMove(t, parent, group, Ready, Frozen).1, 0)
    case GroupResume(parent, group) => (GroupMove(t, parent, group, Frozen, Ready).1, 0)
    case CancelIpc(id) => (ProcessModel.CancelIpc(t, id).1, 0)
    case Pause(actor) => (EmergencyPause(t, actor).1, 0)
    case Resume(actor) => (EmergencyResume(t, actor).1, 0)
    case Restart(id, minted) => (ProcessModel.Restart(t, id, minted).1, 0)
    case Reap(parent, child) => (WaitChild(t, parent, child).1, 0)
  }

  function Observe(births: Births, id: u64): Births {
    if id == 0 then births else births[id := |births|]
  }

  function UsedSlots(t: Table): set<nat> {
    set i: nat | i < SLOTS && t.entries[i].state != Unused
  }

  ghost predicate OneRunner(t: Table) {
    forall i: nat | i < SLOTS && t.entries[i].state == Running :: i == t.current
  }

  /** `reaps` bounds the reaps so far, so no generation has come near wrapping. */
  ghost predicate Inv(t: Table, births: Births, reaps: nat) {
    && Forest(t, births) && OneRunner(t) && t.live == |UsedSlots(t)|
    && (forall i: nat | i < SLOTS :: t.entries[i].generation <= 1 + reaps)
  }

  /** Slot by slot the same identities, and the same slots in use. */
  ghost predicate SameSlot(p: Process, q: Process) {
    && q.id == p.id && q.parent == p.parent && q.group == p.group && q.generation == p.generation
    && (p.state == Unused <==> q.state == Unused)
  }

  ghost predicate SameShape(t: Table, t': Table) {
    forall i: nat | i < SLOTS :: SameSlot(t.entries[i], t'.entries[i])
  }

  lemma ShapeKeepsForest(t: Table, t': Table, births: Births)
    requires SameShape(t, t') && Forest(t, births)
    ensures Forest(t', births) && UsedSlots(t') == UsedSlots(t)
  {
    forall i: nat | i < SLOTS ensures SlotOk(t', births, i) {
      assert SlotOk(t, births, i) && SameSlot(t.entries[i], t'.entries[i]);
    }
    forall id | id in births ensures IdOk(t', births, id) {
      assert IdOk(t, births, id) && SameSlot(t.entries[IdSlot(id)], t'.entries[IdSlot(id)]);
    }
    forall i: nat | i < SLOTS ensures i in UsedSlots(t') <==> i in UsedSlots(t) {
      assert SameSlot(t.entries[i], t'.entries[i]);
    }
  }

  /** The ancestor walk reads only the shape, so it is unmoved by ends, wakes and freezes. */
  lemma {:induction false} ShapeKeepsDescent(t: Table, t': Table, root: u64, id: u64, hops: nat)
    requires SameShape(t, t')
    ensures Find(t', id) == Find(t, id) && DescendantOf(t', root, id, hops) == DescendantOf(t, root, id, hops)
    decreases hops
  {
    if IdSlot(id) < SLOTS {
      assert SameSlot(t.entries[IdSlot(id)], t'.entries[IdSlot(id)]);
    }
    if hops > 0 && Find(t, id).Some? {
      ShapeKeepsDescent(t, t', root, t.entries[Find(t, id).value].parent, hops - 1);
    }
  }

  /** Everything but creating and reaping keeps the shape, and one runner at most. */
  lemma QuietStep(t: Table, op: Op, births: Births, reaps: nat)
    requires Inv(t, births, reaps) && !op.Create? && !op.Reap?
    ensures SameShape(t, Step(t, op).0) && OneRunner(Step(t, op).0) && Step(t, op).0.live == t.live
    ensures Step(t, op).1 == 0
  {
    hide Forest, IdSlot, IdGeneration, MakeId, DescendantOf, SameShape;
    QuietShape(t, op);
    if op.Restart? && Find(t, op.id).Some? {
      var i := Find(t, op.id).value;
      assert i in UsedSlots(t);
      assert t.live != 0;
    }
  }

  lemma QuietShape(t: Table, op: Op)
    requires !op.Create? && !op.Reap?
    ensures SameShape(t, Step(t, op).0)
  {
    hide IdSlot, IdGeneration, MakeId, DescendantOf;
  }

  lemma FreshId(t: Table, births: Births, i: nat)
    requires Forest(t, births) && i < SLOTS && t.entries[i].state == Unused
    ensures
      var id := MakeId(i, t.entries[i].generation);
      id !in births && id != 0 && IdSlot(id) == i && IdGeneration(id) == t.entries[i].generation >= 1
  {
    var id := MakeId(i, t.entries[i].generation);
    assert SlotOk(t, births, i);
    IdRoundTrip(i, t.entries[i].generation);
    forall x | x in births ensures x != id { assert IdOk(t, births, x); }
  }

  /** A fresh entry in a free slot, under an id never issued before. */
  lemma BornKeepsForest(t: Table, births: Births, spec: Spec, i: nat)
    requires Forest(t, births) && i < SLOTS && t.entries[i].state == Unused
    requires spec.parent != 0 ==> Find(t, spec.parent).Some?
    ensures
      var p := Born(spec, i, t.entries[i]);
      var t' := RawTable(t.entries[i := p], t.current, t.live + 1);
      && p.id !in births && p.id != 0 && Forest(t', births[p.id := |births|]) && Find(t', p.id) == Some(i)
  {
    hide IdSlot, IdGeneration, MakeId;
    FreshId(t, births, i);
    var p := Born(spec, i, t.entries[i]);
    var t' := RawTable(t.entries[i := p], t.current, t.live + 1);
    var births' := births[p.id := |births|];
    assert births'.Keys == births.Keys + {p.id};
    assert |births'.Keys| == |births.Keys| + 1;
    if spec.parent != 0 {
      assert SlotOk(t, births, Find(t, spec.parent).value);
      assert IdOk(t, births, spec.parent);
    }
    hide Find, IdOk;
    forall k: nat | k < SLOTS ensures SlotOk(t', births', k) { assert SlotOk(t, births, k); }
    forall x | x in births' ensures IdOk(t', births', x) {
      BornIdOk(t, births, p, i, x);
    }
  }

  lemma BornIdOk(t: Table, births: Births, p: Process, i: nat, x: u64)
    requires Forest(t, births) && i < SLOTS && t.entries[i].state == Unused && p.id !in births
    requires p.state != Unused && p.generation == t.entries[i].generation >= 1
    requires IdSlot(p.id) == i && IdGeneration(p.id) == p.generation
    requires x in births || x == p.id
    ensures IdOk(RawTable(t.entries[i := p], t.current, t.live + 1), births[p.id := |births|], x)
  {
    assert births[p.id := |births|].Keys == births.Keys + {p.id};
    if x != p.id { assert IdOk(t, births, x); }
  }

  /** Apart from the forest: one more slot in use, one runner still, generations as they were. */
  lemma BornKeepsCounts(t: Table, t': Table, births: Births, reaps: nat, i: nat, p: Process)
    requires Inv(t, births, reaps) && i < SLOTS && t.entries[i].state == Unused
    requires p.state == Ready && p.generation == t.entries[i].generation
    requires t' == RawTable(t.entries[i := p], t.current, t.live + 1)
    ensures OneRunner(t') && t'.live == |UsedSlots(t')|
    ensures forall k: nat | k < SLOTS :: t'.entries[k].generation <= 1 + reaps
  {
    hide Forest;
    assert UsedSlots(t') == UsedSlots(t) + {i};
  }

  lemma CreateKeeps(t: Table, spec: Spec, births: Births, reaps: nat)
    requires Inv(t, births, reaps)
    ensures
      var (t', id) := Step(t, Create(spec));
      && Inv(t', Observe(births, id), reaps) && (id != 0 ==> id !in births && Find(t', id).Some?)
  {
    var (st, t', id) := ProcessModel.Create(t, spec);
    if st == Ok {
      var i := FreeSlot(t, 0);
      assert t.entries[i].generation >= 1 by { GenerationPositive(t, births, i); }
      hide Forest, IdSlot, IdGeneration, MakeId, Find, OneRunner, UsedSlots;
      BornKeepsForest(t, births, spec, i);
      BornKeepsCounts(t, t', births, reaps, i, Born(spec, i, t.entries[i]));
    }
  }

  lemma GenerationPositive(t: Table, births: Births, i: nat)
    requires Forest(t, births) && i < SLOTS
    ensures t.entries[i].generation >= 1
  {
    assert SlotOk(t, births, i);
  }

  lemma BlankKeepsForest(t: Table, births: Births, i: nat)
    requires Forest(t, births) && i < SLOTS && t.entries[i].generation < U32 - 1
    ensures Forest(RawTable(t.entries[i := Blank(NextGeneration(t.entries[i].generation))], t.current,
                            if t.live != 0 then t.live - 1 else 0), births)
  {
    hide IdSlot, IdGeneration, MakeId, Find;
    var t' := RawTable(t.entries[i := Blank(NextGeneration(t.entries[i].generation))], t.current,
                       if t.live != 0 then t.live - 1 else 0);
    forall k: nat | k < SLOTS ensures SlotOk(t', births, k) { assert SlotOk(t, births, k); }
    forall x | x in births ensures IdOk(t', births, x) { assert IdOk(t, births, x); }
  }

  lemma BlankKeepsCounts(t: Table, births: Births, reaps: nat, i: nat)
    requires Inv(t, births, reaps) && i < SLOTS && t.entries[i].state != Unused && reaps + 2 < U32
    ensures var t' := RawTable(t.entries[i := Blank(NextGeneration(t.entries[i].generation))], t.current,
                               if t.live != 0 then t.live - 1 else 0);
            && OneRunner(t') && t'.live == |UsedSlots(t')|
            && forall k: nat | k < SLOTS :: t'.entries[k].generation <= 1 + (reaps + 1)
  {
    hide Forest;
    var t' := RawTable(t.entries[i := Blank(NextGeneration(t.entries[i].generation))], t.current,
                       if t.live != 0 then t.live - 1 else 0);
    assert UsedSlots(t') == UsedSlots(t) - {i};
    assert i in UsedSlots(t);
  }

  lemma ReapKeeps(t: Table, parent: u64, child: u64, births: Births, reaps: nat)
    requires Inv(t, births, reaps) && reaps + 2 < U32
    ensures Inv(Step(t, Reap(parent, child)).0, births, reaps + 1)
  {
    hide Forest, IdSlot, IdGeneration, MakeId, Find;
    var (st, t', id) := WaitChild(t, parent, child);
    if st == Ok {
      var i := ReapSlot(t, parent, child, 0);
      hide OneRunner, UsedSlots;
      BlankKeepsForest(t, births, i);
      BlankKeepsCounts(t, births, reaps, i);
    }
  }

  lemma StepKeeps(t: Table, op: Op, births: Births, reaps: nat)
    requires Inv(t, births, reaps) && reaps + 2 < U32
    ensures var (t', id) := Step(t, op); Inv(t', Observe(births, id), if op.Reap? then reaps + 1 else reaps)
  {
    if op.Create? {
      CreateKeeps(t, op.spec, births, reaps);
    } else if op.Reap? {
      ReapKeeps(t, op.parent, op.child, births, reaps);
    } else {
      QuietStep(t, op, births, reaps);
      ShapeKeepsForest(t, Step(t, op).0, births);
      forall i: nat | i < SLOTS ensures Step(t, op).0.entries[i].generation <= 1 + reaps {
        assert SameSlot(t.entries[i], Step(t, op).0.entries[i]);
      }
    }
  }

  /** Generations never fall while the reap count stays below the wrap. */
  lemma GenerationsRise(t: Table, op: Op, births: Births, reaps: nat, i: nat)
    requires Inv(t, births, reaps) && reaps + 2 < U32 && i < SLOTS
    ensures t.entries[i].generation <= Step(t, op).0.entries[i].generation
  {
    hide Forest, IdSlot, IdGeneration, MakeId, DescendantOf, Find;
    if !op.Create? && !op.Reap? {
      QuietStep(t, op, births, reaps);
      assert SameSlot(t.entries[i], Step(t, op).0.entries[i]);
    }
  }

  /** An issued id resolves just while its slot still has its generation. */
  lemma ResolvesIffCurrent(t: Table, births: Births, id: u64)
    requires Forest(t, births) && id in births
    ensures IdSlot(id) < SLOTS && (Find(t, id) == None <==> IdGeneration(id) < t.entries[IdSlot(id)].generation)
  {
    assert IdOk(t, births, id);
    assert SlotOk(t, births, IdSlot(id));
    IdParts(id);
  }
}
