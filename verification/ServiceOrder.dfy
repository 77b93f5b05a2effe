/** The order in which the Supervisor starts services: Kahn's algorithm over a sorted ready list. */
module ServiceOrder {
  import opened Words

  type Id = string

  // --- the order of names ---

  /** `a` sorts strictly before `b`, character by character. */
  predicate Before(a: Id, b: Id) {
    if b == "" then false
    else if a == "" then true
    else a[0] < b[0] || (a[0] == b[0] && Before(a[1..], b[1..]))
  }

  lemma {:induction false} BeforeTotal(a: Id, b: Id)
    ensures a == b || Before(a, b) || Before(b, a)
    ensures !(Before(a, b) && Before(b, a)) && !Before(a, a)
  {
    if a != "" && b != "" {
      BeforeTotal(a[1..], b[1..]);
      assert a == [a[0]] + a[1..] && b == [b[0]] + b[1..];
    }
    if a != "" {
      BeforeTotal(a[1..], a[1..]);
    }
  }

  lemma {:induction false} BeforeTransitive(a: Id, b: Id, c: Id)
    requires Before(a, b) && Before(b, c)
    ensures Before(a, c)
  {
    if a != "" && a[0] == b[0] && b[0] == c[0] {
      BeforeTransitive(a[1..], b[1..], c[1..]);
    }
  }

  predicate Sorted(s: seq<Id>) {
    forall i, j | 0 <= i < j < |s| :: Before(s[i], s[j])
  }

  /** A sorted list with one new name put in its place. */
  function Insert(s: seq<Id>, x: Id): (r: seq<Id>)
    ensures forall y :: y in r <==> y in s || y == x
  {
    if s == [] then [x]
    else if Before(x, s[0]) then [x] + s
    else
      var rest := Insert(s[1..], x);
      assert s == [s[0]] + s[1..];
      [s[0]] + rest
  }

  lemma {:induction false} InsertSorted(s: seq<Id>, x: Id)
    requires Sorted(s) && x !in s
    ensures Sorted(Insert(s, x))
  {
    if s != [] {
      if Before(x, s[0]) {
        forall j | 0 < j < |s| ensures Before(x, s[j]) {
          BeforeTransitive(x, s[0], s[j]);
        }
      } else {
        BeforeTotal(x, s[0]);
        InsertSorted(s[1..], x);
        var rest := Insert(s[1..], x);
        forall j | 0 <= j < |rest| ensures Before(s[0], rest[j]) {
          assert rest[j] in s[1..] || rest[j] == x;
        }
      }
    }
  }

  function Sort(s: seq<Id>): (r: seq<Id>)
    ensures forall y :: y in r <==> y in s
  {
    if s == [] then []
    else
      assert s == [s[0]] + s[1..];
      Insert(Sort(s[1..]), s[0])
  }

  lemma {:induction false} SortSorted(s: seq<Id>)
    requires NoDup(s)
    ensures Sorted(Sort(s))
  {
    if s != [] {
      SortSorted(s[1..]);
      InsertSorted(Sort(s[1..]), s[0]);
    }
  }

  lemma SortedNoDup(s: seq<Id>)
    requires Sorted(s)
    ensures NoDup(s)
  {
    forall i, j | 0 <= i < j < |s| ensures s[i] != s[j] {
      BeforeTotal(s[i], s[j]);
    }
  }

  // --- dependency graphs ---

  /** What the manifests were checked for: no dependency twice, none unknown. */
  predicate Checked(deps: map<Id, seq<Id>>) {
    forall s <- deps :: NoDup(deps[s]) && forall d <- deps[s] :: d in deps
  }

  /** Each service of `p` depends on the next. */
  ghost predicate Chain(deps: map<Id, seq<Id>>, p: seq<Id>) {
    && p != []
    && (forall i | 0 <= i < |p| :: p[i] in deps)
    && (forall i | 0 < i < |p| :: p[i] in deps[p[i - 1]])
  }

  ghost predicate Cycle(deps: map<Id, seq<Id>>, p: seq<Id>) {
    Chain(deps, p) && p[0] in deps[p[|p| - 1]]
  }

  /** Every service once, each after all it depends on. */
  ghost predicate Topological(deps: map<Id, seq<Id>>, order: seq<Id>) {
    && NoDup(order)
    && (forall s :: s in order <==> s in deps)
    && forall k | 0 <= k < |order| :: DependsWithin(deps, order[k], order[..k])
  }

  predicate DependsWithin(deps: map<Id, seq<Id>>, s: Id, front: seq<Id>) {
    s in deps && forall d <- deps[s] :: d in front
  }

  /** `a` is `b`, or the first place they differ has the smaller name in `a`. */
  ghost predicate AtMost(a: seq<Id>, b: seq<Id>) {
    a == b || exists k :: 0 <= k < |a| && k < |b| && a[..k] == b[..k] && Before(a[k], b[k])
  }

  /** The services that could come next. */
  ghost function Ready(deps: map<Id, seq<Id>>, order: seq<Id>): set<Id> {
    set s | s in deps && s !in order && DependsWithin(deps, s, order)
  }

  ghost predicate Least(x: Id, s: set<Id>) {
    x in s && forall y <- s :: y == x || Before(x, y)
  }

  /** Each next service is the first by name of those that could come next. */
  ghost predicate Greedy(deps: map<Id, seq<Id>>, order: seq<Id>) {
    forall k | 0 <= k < |order| :: Least(order[k], Ready(deps, order[..k]))
  }

  lemma GreedySnoc(deps: map<Id, seq<Id>>, order: seq<Id>, x: Id)
    requires Greedy(deps, order) && Least(x, Ready(deps, order))
    ensures Greedy(deps, order + [x])
  {
    forall k | 0 <= k < |order| + 1 ensures Least((order + [x])[k], Ready(deps, (order + [x])[..k])) {
      assert (order + [x])[..k] == order[..k];
      assert k == |order| ==> order[..k] == order;
    }
  }

  lemma GreedyNoDup(deps: map<Id, seq<Id>>, order: seq<Id>)
    requires Greedy(deps, order)
    ensures NoDup(order) && forall k | 0 <= k < |order| :: order[k] in deps && DependsWithin(deps, order[k], order[..k])
  {
    forall i, j | 0 <= i < j < |order| ensures order[i] != order[j] {
      assert order[i] == order[..j][i];
      assert order[j] in Ready(deps, order[..j]);
    }
    forall k | 0 <= k < |order| ensures order[k] in deps && DependsWithin(deps, order[k], order[..k]) {
      assert order[k] in Ready(deps, order[..k]);
    }
  }

  lemma {:induction false} FirstDifference(a: seq<Id>, b: seq<Id>) returns (k: nat)
    requires |a| == |b|
    ensures k <= |a| && a[..k] == b[..k] && (k < |a| ==> a[k] != b[k])
  {
    k := 0;
    while k < |a| && a[k] == b[k]
      invariant k <= |a| && a[..k] == b[..k]
    {
      k := k + 1;
    }
  }

  lemma SameLength(deps: map<Id, seq<Id>>, a: seq<Id>, b: seq<Id>)
    requires Topological(deps, a) && Topological(deps, b)
    ensures |a| == |b|
  {
    NoDupSize(a);
    NoDupSize(b);
    assert Elements(a) == Elements(b);
  }

  lemma NextWasReady(deps: map<Id, seq<Id>>, order: seq<Id>, k: nat)
    requires Topological(deps, order) && k < |order|
    ensures order[k] in Ready(deps, order[..k])
  {
    assert order[k] in order;
    assert order[k] !in order[..k];
  }

  lemma LeastComesFirst(deps: map<Id, seq<Id>>, order: seq<Id>, other: seq<Id>, k: nat)
    requires Greedy(deps, order) && Topological(deps, other) && k < |order| && k < |other|
    requires order[..k] == other[..k] && order[k] != other[k]
    ensures Before(order[k], other[k])
  {
    hide Topological, Ready;
    NextWasReady(deps, other, k);
    assert Least(order[k], Ready(deps, order[..k]));
  }

  lemma CompleteIsTopological(deps: map<Id, seq<Id>>, order: seq<Id>)
    requires Greedy(deps, order) && forall s <- deps :: s in order
    ensures Topological(deps, order)
  {
    GreedyNoDup(deps, order);
    hide Greedy, DependsWithin, NoDup;
    forall s | s in order ensures s in deps {
      var k :| 0 <= k < |order| && order[k] == s;
    }
  }

  /** A complete greedy order is topological and no topological order comes before it. */
  lemma GreedyIsLeast(deps: map<Id, seq<Id>>, order: seq<Id>, other: seq<Id>)
    requires Greedy(deps, order) && (forall s <- deps :: s in order)
    ensures Topological(deps, order)
    ensures Topological(deps, other) ==> AtMost(order, other)
  {
    CompleteIsTopological(deps, order);
    if Topological(deps, other) {
      hide Topological, Greedy, Before;
      SameLength(deps, order, other);
      var k := FirstDifference(order, other);
      if k < |order| {
        LeastComesFirst(deps, order, other, k);
      } else {
        assert order[..k] == order && other[..k] == other;
      }
    }
  }

  // --- stuck exactly when there is a cycle ---

  /** In a topological order a dependency's place is earlier. */
  lemma {:induction false} PathDescends(deps: map<Id, seq<Id>>, order: seq<Id>, p: seq<Id>, i: nat, k: nat)
    returns (j: nat)
    requires Topological(deps, order) && Chain(deps, p) && i < |p| && k < |order| && order[k] == p[0]
    ensures j <= k - i && order[j] == p[i]
  {
    j := k;
    if i > 0 {
      var h := PathDescends(deps, order, p, i - 1, k);
      assert p[i] in order[..h];
      j :| 0 <= j < h && order[..h][j] == p[i];
    }
  }

  lemma NotEarlier(order: seq<Id>, j: nat, k: nat)
    requires NoDup(order) && j <= k < |order|
    ensures order[k] !in order[..j]
  {
  }

  lemma ChainDoesNotClose(deps: map<Id, seq<Id>>, p: seq<Id>, order: seq<Id>)
    requires Chain(deps, p) && Topological(deps, order)
    ensures p[0] !in deps[p[|p| - 1]]
  {
    assert p[0] in order;
    var k :| 0 <= k < |order| && order[k] == p[0];
    var j := PathDescends(deps, order, p, |p| - 1, k);
    NotEarlier(order, j, k);
    assert DependsWithin(deps, order[j], order[..j]);
  }

  lemma CycleHasNoOrder(deps: map<Id, seq<Id>>, p: seq<Id>, order: seq<Id>)
    requires Cycle(deps, p)
    ensures !Topological(deps, order)
  {
    if Topological(deps, order) {
      ChainDoesNotClose(deps, p, order);
    }
  }

  /** A chain of dependencies through services that are all stuck. */
  ghost predicate StuckChain(deps: map<Id, seq<Id>>, stuck: set<Id>, p: seq<Id>) {
    Chain(deps, p) && forall i | 0 <= i < |p| :: p[i] in stuck
  }

  ghost predicate WaitsOn(deps: map<Id, seq<Id>>, stuck: set<Id>, s: Id) {
    s in deps && exists d :: d in deps[s] && d in stuck
  }

  lemma {:induction false} LongChain(deps: map<Id, seq<Id>>, stuck: set<Id>, n: nat) returns (p: seq<Id>)
    requires stuck != {} && forall s <- stuck :: WaitsOn(deps, stuck, s)
    ensures StuckChain(deps, stuck, p) && |p| == n + 1
  {
    if n == 0 {
      var s :| s in stuck;
      assert WaitsOn(deps, stuck, s);
      p := [s];
    } else {
      var q := LongChain(deps, stuck, n - 1);
      var d := Next(deps, stuck, q[n - 1]);
      p := q + [d];
    }
  }

  lemma Next(deps: map<Id, seq<Id>>, stuck: set<Id>, s: Id) returns (d: Id)
    requires WaitsOn(deps, stuck, s) && forall s <- stuck :: WaitsOn(deps, stuck, s)
    ensures d in deps[s] && d in stuck && d in deps
  {
    d :| d in deps[s] && d in stuck;
    assert WaitsOn(deps, stuck, d);
  }

  lemma StuckMeansCycle(deps: map<Id, seq<Id>>, order: seq<Id>, x: Id) returns (p: seq<Id>)
    requires Checked(deps) && Ready(deps, order) == {} && x in deps && x !in order
    ensures Cycle(deps, p)
  {
    var stuck := set s | s in deps && s !in order;
    forall s <- stuck ensures WaitsOn(deps, stuck, s) {
      assert s !in Ready(deps, order);
    }
    hide Checked, WaitsOn, Ready;
    assert x in stuck;
    var q := LongChain(deps, stuck, |stuck|);
    if NoDup(q) {
      NoDupInside(q, stuck);
    }
    p := Loop(deps, stuck, q);
  }

  lemma Loop(deps: map<Id, seq<Id>>, stuck: set<Id>, q: seq<Id>) returns (p: seq<Id>)
    requires StuckChain(deps, stuck, q) && !NoDup(q)
    ensures Cycle(deps, p)
  {
    var i, j :| 0 <= i < j < |q| && q[i] == q[j];
    p := q[i..j];
    assert q[j] in deps[q[j - 1]];
  }

  // --- the algorithm ---

  /** How many entries of `ds` are still to come. */
  function Missing(ds: seq<Id>, order: seq<Id>): nat {
    if ds == [] then 0
    else Missing(ds[..|ds| - 1], order) + if ds[|ds| - 1] in order then 0 else 1
  }

  lemma {:induction false} MissingNone(ds: seq<Id>, order: seq<Id>)
    ensures Missing(ds, order) == 0 <==> forall d <- ds :: d in order
    ensures Missing(ds, []) == |ds|
  {
    if ds != [] {
      MissingNone(ds[..|ds| - 1], order);
      assert ds == ds[..|ds| - 1] + [ds[|ds| - 1]];
    }
  }

  lemma {:induction false} MissingOne(ds: seq<Id>, order: seq<Id>, x: Id)
    requires NoDup(ds) && x !in order
    ensures Missing(ds, order + [x]) == Missing(ds, order) - if x in ds then 1 else 0
  {
    if ds != [] {
      var last := ds[|ds| - 1];
      MissingOne(ds[..|ds| - 1], order, x);
      assert ds == ds[..|ds| - 1] + [last];
      assert last == x ==> x !in ds[..|ds| - 1];
    }
  }

  ghost function UsersOf(deps: map<Id, seq<Id>>, d: Id): set<Id> {
    set s | s in deps && d in deps[s]
  }

  ghost predicate UsersKnown(deps: map<Id, seq<Id>>, users: map<Id, seq<Id>>) {
    users.Keys == deps.Keys && forall d <- users :: NoDup(users[d]) && Elements(users[d]) == UsersOf(deps, d)
  }

  /** Turn the dependency lists around, service by service in the order of the dictionary. */
  method CollectUsers(names: seq<Id>, deps: map<Id, seq<Id>>) returns (users: map<Id, seq<Id>>)
    requires Checked(deps) && NoDup(names) && Elements(names) == deps.Keys
    ensures UsersKnown(deps, users)
  {
    users := map d <- deps :: [];
    for i := 0 to |names|
      invariant users.Keys == deps.Keys
      invariant forall d <- users :: NoDup(users[d]) && Elements(users[d]) == UsersOf(deps, d) * Elements(names[..i])
    {
      var s := names[i];
      assert s in Elements(names) && s !in names[..i];
      ghost var before := users;
      users := AddUser(deps[s], s, users);
      assert names[..i + 1] == names[..i] + [s];
      forall d <- users ensures NoDup(users[d]) && Elements(users[d]) == UsersOf(deps, d) * Elements(names[..i + 1]) {
        OneMoreUser(deps, before[d], d, names[..i], s);
      }
    }
    assert names[..|names|] == names;
    forall d <- users ensures Elements(users[d]) == UsersOf(deps, d) {
      assert UsersOf(deps, d) <= deps.Keys;
    }
  }

  lemma OneMoreUser(deps: map<Id, seq<Id>>, users: seq<Id>, d: Id, front: seq<Id>, s: Id)
    requires s in deps && s !in front && NoDup(users) && Elements(users) == UsersOf(deps, d) * Elements(front)
    ensures var more := users + if d in deps[s] then [s] else [];
            NoDup(more) && Elements(more) == UsersOf(deps, d) * Elements(front + [s])
  {
    assert s !in Elements(users);
    assert Elements(front + [s]) == Elements(front) + {s};
    assert Elements(users + [s]) == Elements(users) + {s};
    assert users + [] == users;
  }

  /** Enter `s` as a user of everything it depends on. */
  method AddUser(ds: seq<Id>, s: Id, before: map<Id, seq<Id>>) returns (users: map<Id, seq<Id>>)
    requires NoDup(ds) && forall d <- ds :: d in before
    ensures users.Keys == before.Keys
    ensures forall d <- users :: users[d] == before[d] + if d in ds then [s] else []
  {
    users := before;
    for j := 0 to |ds|
      invariant users.Keys == before.Keys
      invariant forall d <- users :: users[d] == before[d] + if d in ds[..j] then [s] else []
    {
      var d := ds[j];
      assert d !in ds[..j];
      users := users[d := users[d] + [s]];
      assert ds[..j + 1] == ds[..j] + [d];
    }
    assert ds[..|ds|] == ds;
  }

  /** What the loop keeps between two services. */
  ghost predicate Going(deps: map<Id, seq<Id>>, order: seq<Id>, ready: seq<Id>, indegree: map<Id, nat>) {
    && Greedy(deps, order) && Sorted(ready) && Elements(ready) == Ready(deps, order)
    && indegree.Keys == deps.Keys && forall s <- deps :: indegree[s] == Missing(deps[s], order)
  }

  /** The services `kids` whose last missing dependency has just come. */
  ghost function Freed(deps: map<Id, seq<Id>>, order: seq<Id>, kids: seq<Id>): set<Id> {
    set s | s in kids && s in deps && Missing(deps[s], order) == 0
  }

  lemma ReadyNext(deps: map<Id, seq<Id>>, order: seq<Id>, sid: Id, kids: seq<Id>)
    requires Checked(deps) && Greedy(deps, order) && sid in Ready(deps, order) && Elements(kids) == UsersOf(deps, sid)
    ensures Ready(deps, order + [sid]) == Ready(deps, order) - {sid} + Freed(deps, order + [sid], kids)
    ensures forall s <- kids :: s in deps && s !in Ready(deps, order)
    ensures forall s <- deps :: s !in kids ==> Missing(deps[s], order + [sid]) == Missing(deps[s], order)
  {
    hide Checked, Greedy, Missing;
    var next := order + [sid];
    forall s <- deps
      ensures s in Ready(deps, next) <==> s in Ready(deps, order) - {sid} + Freed(deps, next, kids)
      ensures s in kids ==> s !in Ready(deps, order)
      ensures s !in kids ==> Missing(deps[s], next) == Missing(deps[s], order)
    {
      assert s in kids <==> s in Elements(kids);
      ReadyOne(deps, order, sid, kids, s);
    }
    forall s | s in kids ensures s in deps {
      assert s in Elements(kids);
    }
  }

  lemma ReadyOne(deps: map<Id, seq<Id>>, order: seq<Id>, sid: Id, kids: seq<Id>, s: Id)
    requires Checked(deps) && Greedy(deps, order) && sid in Ready(deps, order) && s in deps
    requires s in kids <==> sid in deps[s]
    ensures var next := order + [sid];
            && (s in Ready(deps, next) <==> s in Ready(deps, order) - {sid} + Freed(deps, next, kids))
            && (s in kids ==> s !in Ready(deps, order))
            && (s !in kids ==> Missing(deps[s], next) == Missing(deps[s], order))
  {
    MissingNone(deps[s], order + [sid]);
    MissingOne(deps[s], order, sid);
    hide Greedy, Missing, NoDup, Checked;
    if s in order {
      TakenHaveAll(deps, order, s);
    }
  }

  lemma TakenHaveAll(deps: map<Id, seq<Id>>, order: seq<Id>, s: Id)
    requires Greedy(deps, order) && s in order
    ensures s in deps && DependsWithin(deps, s, order)
  {
    var k :| 0 <= k < |order| && order[k] == s;
    assert s in Ready(deps, order[..k]);
  }

  lemma Taking(deps: map<Id, seq<Id>>, users: map<Id, seq<Id>>, order: seq<Id>, ready: seq<Id>)
    requires Checked(deps) && UsersKnown(deps, users) && ready != [] && Greedy(deps, order)
    requires Sorted(ready) && Elements(ready) == Ready(deps, order)
    ensures ready[0] in users
    ensures var sid, next, kids := ready[0], order + [ready[0]], Sort(users[ready[0]]);
            && sid !in order && Greedy(deps, next)
            && Sorted(ready[1..]) && Elements(ready[1..]) == Ready(deps, order) - {sid}
            && NoDup(kids) && Elements(kids) == UsersOf(deps, sid)
            && Ready(deps, next) == Ready(deps, order) - {sid} + Freed(deps, next, kids)
            && (forall s <- kids :: s in deps && s !in Ready(deps, order))
            && forall s <- deps :: s !in kids ==> Missing(deps[s], next) == Missing(deps[s], order)
  {
    var sid := ready[0];
    assert sid in Elements(ready);
    hide Missing, Freed;
    WithoutFirst(ready);
    FirstIsLeast(ready);
    GreedySnoc(deps, order, sid);
    var kids := Sort(users[sid]);
    SortSorted(users[sid]);
    SortedNoDup(kids);
    assert Elements(kids) == Elements(users[sid]);
    ReadyNext(deps, order, sid, kids);
  }

  /** Take the first ready service and free its users. */
  method TakeNext(deps: map<Id, seq<Id>>, users: map<Id, seq<Id>>, order: seq<Id>, ready: seq<Id>,
                  indegree: map<Id, nat>)
    returns (left: seq<Id>, next: seq<Id>, degree: map<Id, nat>)
    requires Checked(deps) && UsersKnown(deps, users) && Going(deps, order, ready, indegree) && ready != []
    ensures next == order + [ready[0]] && Going(deps, next, left, degree)
  {
    hide Missing, Sorted, Greedy, Ready, Checked, UsersKnown, NoDup, Least, Elements, UsersOf, Sort;
    var sid := ready[0];
    left, next, degree := ready[1..], order + [sid], indegree;
    Taking(deps, users, order, ready);
    var kids := Sort(users[sid]);
    assert kids[0..] == kids && Freed(deps, next, kids[..0]) == {};
    Members(kids);
    hide Freed;
    for j := 0 to |kids|
      invariant degree.Keys == deps.Keys && Sorted(left)
      invariant forall s <- deps :: degree[s] == Missing(deps[s], if s in kids[j..] then order else next)
      invariant Elements(left) == Ready(deps, order) - {sid} + Freed(deps, next, kids[..j])
    {
      var child := kids[j];
      FreedNext(deps, next, kids, j);
      OneLess(deps, order, sid, child);
      assert degree[child] == Missing(deps[child], order);
      degree := degree[child := degree[child] - 1];
      if degree[child] == 0 {
        left := Enqueue(left, child);
      }
    }
    assert kids[..|kids|] == kids && kids[|kids|..] == [];
  }

  /** Append and sort. */
  method Enqueue(ready: seq<Id>, child: Id) returns (left: seq<Id>)
    requires Sorted(ready) && child !in Elements(ready)
    ensures Sorted(left) && Elements(left) == Elements(ready) + {child}
  {
    InsertSorted(ready, child);
    left := Insert(ready, child);
  }

  lemma Members(s: seq<Id>)
    ensures forall x <- s :: x in Elements(s)
  {
  }

  lemma WithoutFirst(ready: seq<Id>)
    requires Sorted(ready) && ready != []
    ensures Sorted(ready[1..]) && Elements(ready[1..]) == Elements(ready) - {ready[0]}
  {
    SortedNoDup(ready);
    assert ready == [ready[0]] + ready[1..];
  }

  /** One more child: what of `kids` is behind, what is ahead, what has been freed. */
  lemma FreedNext(deps: map<Id, seq<Id>>, next: seq<Id>, kids: seq<Id>, j: nat)
    requires NoDup(kids) && j < |kids| && forall s <- kids :: s in deps
    ensures kids[j] in kids[j..] && kids[j] !in kids[j + 1..] && kids[j] !in kids[..j]
    ensures forall s :: s in kids[j..] <==> s in kids[j + 1..] || s == kids[j]
    ensures Freed(deps, next, kids[..j + 1])
            == Freed(deps, next, kids[..j]) + if Missing(deps[kids[j]], next) == 0 then {kids[j]} else {}
    ensures kids[j] !in Freed(deps, next, kids[..j])
  {
    hide Missing;
    assert kids[..j + 1] == kids[..j] + [kids[j]];
    assert kids[j..] == [kids[j]] + kids[j + 1..];
  }

  lemma OneLess(deps: map<Id, seq<Id>>, order: seq<Id>, sid: Id, child: Id)
    requires Checked(deps) && sid !in order && child in UsersOf(deps, sid)
    ensures Missing(deps[child], order + [sid]) == Missing(deps[child], order) - 1
  {
    MissingOne(deps[child], order, sid);
  }

  lemma FirstIsLeast(ready: seq<Id>)
    requires Sorted(ready) && ready != []
    ensures Least(ready[0], Elements(ready))
  {
  }

  /** The order of the services, or nothing when the graph has a cycle. */
  method ComputeOrder(names: seq<Id>, deps: map<Id, seq<Id>>) returns (r: Option<seq<Id>>)
    requires Checked(deps) && NoDup(names) && Elements(names) == deps.Keys
    ensures r.None? <==> exists p :: Cycle(deps, p)
    ensures r.Some? ==> Topological(deps, r.value) && forall o :: Topological(deps, o) ==> AtMost(r.value, o)
    ensures r.None? ==> forall o :: !Topological(deps, o)
  {
    var users := CollectUsers(names, deps);
    var indegree: map<Id, nat> := map s <- deps :: |deps[s]|;
    assert forall s <- names :: s in Elements(names);
    var ready := Sort(Unblocked(names, indegree));
    StartsGoing(names, deps, indegree);
    var order: seq<Id> := [];
    while ready != []
      invariant Going(deps, order, ready, indegree) && UsersKnown(deps, users)
      decreases |deps.Keys| - |order|
    {
      OrderFits(deps, order + [ready[0]], order, ready, indegree);
      ready, order, indegree := TakeNext(deps, users, order, ready, indegree);
    }
    assert Ready(deps, order) == {};
    if |order| != |names| {
      r := None;
      Stuck(names, deps, order);
    } else {
      r := Some(order);
      Finished(names, deps, order);
    }
  }

  lemma OrderFits(deps: map<Id, seq<Id>>, next: seq<Id>, order: seq<Id>, ready: seq<Id>, indegree: map<Id, nat>)
    requires Going(deps, order, ready, indegree) && ready != [] && next == order + [ready[0]]
    ensures |next| <= |deps.Keys|
  {
    assert ready[0] in Elements(ready);
    FirstIsLeast(ready);
    GreedySnoc(deps, order, ready[0]);
    GreedyNoDup(deps, next);
    NoDupInside(next, deps.Keys);
  }

  lemma FirstReady(names: seq<Id>, deps: map<Id, seq<Id>>, indegree: map<Id, nat>, s: Id)
    requires Elements(names) == deps.Keys && indegree == map s <- deps :: |deps[s]|
    requires forall s <- names :: s in indegree
    ensures s in Sort(Unblocked(names, indegree)) <==> s in Ready(deps, [])
    ensures s in deps ==> Missing(deps[s], []) == |deps[s]|
  {
    assert s in names <==> s in Elements(names);
    if s in deps {
      MissingNone(deps[s], []);
    }
  }

  lemma StartsGoing(names: seq<Id>, deps: map<Id, seq<Id>>, indegree: map<Id, nat>)
    requires Checked(deps) && NoDup(names) && Elements(names) == deps.Keys && indegree == map s <- deps :: |deps[s]|
    ensures (forall s <- names :: s in indegree) && Going(deps, [], Sort(Unblocked(names, indegree)), indegree)
  {
    FirstDegrees(names, deps, indegree);
    UnblockedNoDup(names, indegree);
    SortSorted(Unblocked(names, indegree));
    FirstReadySet(names, deps, indegree);
    hide Missing, Sort, Unblocked, NoDup, Sorted, Checked, Ready, Elements;
  }

  lemma FirstDegrees(names: seq<Id>, deps: map<Id, seq<Id>>, indegree: map<Id, nat>)
    requires Elements(names) == deps.Keys && indegree == map s <- deps :: |deps[s]|
    ensures forall s <- names :: s in indegree
    ensures indegree.Keys == deps.Keys && forall s <- deps :: indegree[s] == Missing(deps[s], [])
  {
    assert forall s <- names :: s in Elements(names);
    hide Missing, Sort, Unblocked, Ready;
    forall s | s in deps ensures indegree[s] == Missing(deps[s], []) {
      MissingNone(deps[s], []);
    }
  }

  lemma FirstReadySet(names: seq<Id>, deps: map<Id, seq<Id>>, indegree: map<Id, nat>)
    requires Elements(names) == deps.Keys && indegree == map s <- deps :: |deps[s]|
    requires forall s <- names :: s in indegree
    ensures Elements(Sort(Unblocked(names, indegree))) == Ready(deps, [])
  {
    hide Missing, Sort, Unblocked, Ready, Elements;
    var ready := Sort(Unblocked(names, indegree));
    forall s ensures s in ready <==> s in Ready(deps, []) {
      FirstReady(names, deps, indegree, s);
    }
    NamesExactly(ready, Ready(deps, []));
  }

  lemma NamesExactly(s: seq<Id>, x: set<Id>)
    requires forall y :: y in s <==> y in x
    ensures Elements(s) == x
  {
  }

  lemma {:induction false} UnblockedNoDup(names: seq<Id>, indegree: map<Id, nat>)
    requires NoDup(names) && forall s <- names :: s in indegree
    ensures NoDup(Unblocked(names, indegree))
  {
    if names != [] {
      UnblockedNoDup(names[..|names| - 1], indegree);
    }
  }

  lemma Stuck(names: seq<Id>, deps: map<Id, seq<Id>>, order: seq<Id>)
    requires Checked(deps) && NoDup(names) && Elements(names) == deps.Keys && Greedy(deps, order)
    requires Ready(deps, order) == {} && |order| != |names|
    ensures (exists p :: Cycle(deps, p)) && forall o :: !Topological(deps, o)
  {
    GreedyNoDup(deps, order);
    NoDupSize(names);
    NoDupSize(order);
    assert (forall s <- deps :: s in order) ==> Elements(order) == deps.Keys;
    var x :| x in deps && x !in order;
    var p := StuckMeansCycle(deps, order, x);
    forall o ensures !Topological(deps, o) {
      CycleHasNoOrder(deps, p, o);
    }
  }

  lemma Finished(names: seq<Id>, deps: map<Id, seq<Id>>, order: seq<Id>)
    requires NoDup(names) && Elements(names) == deps.Keys && Greedy(deps, order) && |order| == |names|
    ensures Topological(deps, order) && forall o :: Topological(deps, o) ==> AtMost(order, o)
    ensures forall p :: !Cycle(deps, p)
  {
    GreedyNoDup(deps, order);
    NoDupSize(names);
    NoDupSize(order);
    SameSize(Elements(order), deps.Keys);
    assert forall s <- deps :: s in Elements(order);
    forall o ensures Topological(deps, order) && (Topological(deps, o) ==> AtMost(order, o)) {
      GreedyIsLeast(deps, order, o);
    }
    forall p ensures !Cycle(deps, p) {
      if Cycle(deps, p) {
        CycleHasNoOrder(deps, p, order);
      }
    }
  }

  function Unblocked(names: seq<Id>, indegree: map<Id, nat>): (r: seq<Id>)
    requires forall s <- names :: s in indegree
    ensures forall s :: s in r <==> s in names && indegree[s] == 0
  {
    if names == [] then []
    else
      var rest := Unblocked(names[..|names| - 1], indegree);
      var last := names[|names| - 1];
      assert names == names[..|names| - 1] + [last];
      if indegree[last] == 0 then rest + [last] else rest
  }
}
