/** The parent relation of the process table: a forest, walked upward by a bounded search that is
    proved to decide the unbounded ancestor relation. */
module ProcessForest {
  import opened Words
  import opened ProcessModel

  /** The birth number of every id ever issued. */
  type Births = map<u64, nat>

  ghost predicate SlotOk(t: Table, births: Births, i: nat)
    requires i < SLOTS
  {
    var p := t.entries[i];
    && p.generation >= 1
    && (p.state != Unused ==>
          && p.id == MakeId(i, p.generation) && p.id in births
          && (p.parent != 0 ==> p.parent in births && births[p.parent] < births[p.id]))
  }

  ghost predicate IdOk(t: Table, births: Births, id: u64)
    requires id in births
  {
    && IdSlot(id) < SLOTS && births[id] < |births|
    && 1 <= IdGeneration(id) <= t.entries[IdSlot(id)].generation
    && (IdGeneration(id) == t.entries[IdSlot(id)].generation ==> t.entries[IdSlot(id)].state != Unused)
  }

  ghost predicate Forest(t: Table, births: Births) {
    && (forall i: nat | i < SLOTS :: SlotOk(t, births, i))
    && (forall id | id in births :: IdOk(t, births, id))
  }

  /** The id a used slot carries resolves to that slot. */
  lemma UsedIsFound(t: Table, births: Births, i: nat)
    requires Forest(t, births) && i < SLOTS && t.entries[i].state != Unused
    ensures Find(t, t.entries[i].id) == Some(i)
  {
    assert SlotOk(t, births, i);
    IdRoundTrip(i, t.entries[i].generation);
  }

  ghost function NextUp(path: seq<u64>, root: u64, k: nat): u64
    requires k < |path|
  {
    if k == |path| - 1 then root else path[k + 1]
  }

  /** The k-th id of the path resolves, to a child of the next one. */
  ghost predicate Hop(t: Table, path: seq<u64>, root: u64, k: nat)
    requires k < |path|
  {
    Find(t, path[k]).Some? && t.entries[Find(t, path[k]).value].parent == NextUp(path, root, k)
  }

  /** Each id of the path resolves, and each is the child of the next, the last of `root`. */
  ghost predicate IsChain(t: Table, path: seq<u64>, root: u64) {
    |path| > 0 && forall k: nat | k < |path| :: Hop(t, path, root, k)
  }

  /** `root` is an ancestor of `id` through processes that have not been reaped. */
  ghost predicate Ancestor(t: Table, root: u64, id: u64) {
    exists path :: IsChain(t, path, root) && path[0] == id
  }

  lemma {:induction false} BirthsFall(t: Table, births: Births, path: seq<u64>, root: u64, j: nat, k: nat)
    requires Forest(t, births) && IsChain(t, path, root) && j < k < |path|
    ensures path[j] in births && path[k] in births && births[path[k]] < births[path[j]]
    decreases k - j
  {
    assert Hop(t, path, root, j) && Hop(t, path, root, j + 1);
    assert SlotOk(t, births, Find(t, path[j]).value);
    if j + 1 < k {
      BirthsFall(t, births, path, root, j + 1, k);
    }
  }

  lemma FindNames(t: Table, id: u64)
    ensures Find(t, id).Some? ==> Find(t, id).value < SLOTS && t.entries[Find(t, id).value].id == id
  {
  }

  /** Along a chain births fall, so no slot repeats and no chain outgrows the table. */
  lemma ChainFitsTable(t: Table, births: Births, path: seq<u64>, root: u64)
    requires Forest(t, births) && IsChain(t, path, root)
    ensures |path| <= SLOTS
  {
    forall k: nat | k < |path| ensures Find(t, path[k]).Some? && Find(t, path[k]).value < SLOTS {
      assert Hop(t, path, root, k);
    }
    var slots := seq(|path|, k requires 0 <= k < |path| => Find(t, path[k]).value);
    forall j, k | 0 <= j < k < |slots| ensures slots[j] != slots[k] {
      BirthsFall(t, births, path, root, j, k);
      FindNames(t, path[j]);
      FindNames(t, path[k]);
    }
    NoDupInside(slots, Below(SLOTS));
  }

  /** A walk that succeeds has walked a chain. */
  lemma {:induction false} WalkFindsChain(t: Table, root: u64, id: u64, hops: nat) returns (path: seq<u64>)
    requires DescendantOf(t, root, id, hops)
    ensures IsChain(t, path, root) && path[0] == id
    decreases hops
  {
    var parent := t.entries[Find(t, id).value].parent;
    if parent == root {
      path := [id];
      assert Hop(t, path, root, 0);
    } else {
      var rest := WalkFindsChain(t, root, parent, hops - 1);
      path := [id] + rest;
      assert Hop(t, path, root, 0);
      forall k: nat | 0 < k < |path| ensures Hop(t, path, root, k) {
        assert Hop(t, rest, root, k - 1);
      }
    }
  }

  /** A chain no longer than the hops allowed is walked to its end. */
  lemma {:induction false} ChainIsWalked(t: Table, root: u64, path: seq<u64>, hops: nat)
    requires IsChain(t, path, root) && |path| <= hops && root != 0
    ensures DescendantOf(t, root, path[0], hops)
    decreases |path|
  {
    assert Hop(t, path, root, 0);
    var parent := t.entries[Find(t, path[0]).value].parent;
    if |path| > 1 && parent != root {
      assert Hop(t, path, root, 1);
      var rest := path[1..];
      forall k: nat | k < |rest| ensures Hop(t, rest, root, k) {
        assert Hop(t, path, root, k + 1);
      }
      ChainIsWalked(t, root, rest, hops - 1);
    }
  }

  /** The 32-step walk decides the ancestor relation, however long its chains could have been. */
  lemma WalkIsAncestry(t: Table, births: Births, root: u64, id: u64)
    requires Forest(t, births) && root != 0
    ensures DescendantOf(t, root, id, SLOTS) <==> Ancestor(t, root, id)
  {
    if DescendantOf(t, root, id, SLOTS) {
      var path := WalkFindsChain(t, root, id, SLOTS);
    }
    if Ancestor(t, root, id) {
      var path :| IsChain(t, path, root) && path[0] == id;
      ChainFitsTable(t, births, path, root);
      ChainIsWalked(t, root, path, SLOTS);
    }
  }

  /** No process is its own ancestor. */
  lemma AncestryAcyclic(t: Table, births: Births, id: u64)
    requires Forest(t, births) && id != 0
    ensures !Ancestor(t, id, id)
  {
    if Ancestor(t, id, id) {
      var path :| IsChain(t, path, id) && path[0] == id;
      var last := path[|path| - 1];
      assert Hop(t, path, id, |path| - 1);
      assert SlotOk(t, births, Find(t, last).value);
      if |path| > 1 {
        BirthsFall(t, births, path, id, 0, |path| - 1);
      }
    }
  }
}
