/** The capability tables as values: generation-tagged slots, parent links that may cross
    tables, and the lazy validity walk.  A table is named by a value of the type parameter T
    (the address of its storage); a name outside the world plays the part of a null pointer. */
module CapabilityModel {
  import opened Words

  const SLOTS: nat := 64
  const MAX_DEPTH: nat := 64
  const RESTART_CAPS: nat := 16

  type Rights = bv64
  const KNOWN: Rights := 0x1FF
  const TRANSFER: Rights := 0x40
  const REVOKE: Rights := 0x80

  predicate Known(r: Rights) { r & !KNOWN == 0 }

  predicate Contained(r: Rights, s: Rights) { r & !s == 0 }

  datatype Status = Ok | Inval | BadCap | Revoked | Denied | NoMemory

  datatype Entry<T> = Entry(
    obj: u64, rights: Rights, generation: u32, active: bool, depth: u8,
    parent: Option<T>, parentIncarnation: u64, parentHandle: u64)

  datatype RawTable<T> = RawTable(incarnation: u64, entries: seq<Entry<T>>)

  type Table<T> = t: RawTable<T> | |t.entries| == SLOTS
    witness RawTable(0, seq(SLOTS, _ => Entry(0, 0, 0, false, 0, None, 0, 0)))

  type World<!T> = map<T, Table<T>>

  // --- handles: generation in the high word, slot + 1 in the low word ---

  function HandleSlot(h: u64): u32 {
    if h % U32 == 0 then U32 - 1 else h % U32 - 1
  }

  function HandleGeneration(h: u64): u32 { h / U32 }

  function MakeHandle(slot: nat, generation: u32): u64
    requires slot < SLOTS
  {
    generation * U32 + slot + 1
  }

  lemma HandleRoundTrip(slot: nat, generation: u32)
    requires slot < SLOTS
    ensures HandleSlot(MakeHandle(slot, generation)) == slot
    ensures HandleGeneration(MakeHandle(slot, generation)) == generation
    ensures MakeHandle(slot, generation) != 0
  {
    var h := MakeHandle(slot, generation);
    assert h / U32 == generation && h % U32 == slot + 1;
  }

  // --- slot transitions ---

  function ZeroTable<T>(): Table<T> {
    RawTable(0, seq(SLOTS, _ => Entry(0, 0, 0, false, 0, None, 0, 0)))
  }

  function FreshTable<T>(incarnation: u64): Table<T> {
    RawTable(incarnation, seq(SLOTS, _ => Entry(0, 0, 1, false, 0, None, 0, 0)))
  }

  function Bumped(g: u32): u32 { if g == U32 - 1 then 0 else g + 1 }

  function RetiredEntry<T>(e: Entry<T>): Entry<T> {
    Entry(0, 0, Bumped(e.generation), false, 0, None, 0, 0)
  }

  /** Every slot in `slots` retired, the others untouched. */
  function RetireSlots<T>(tb: Table<T>, slots: set<nat>): Table<T> {
    RawTable(tb.incarnation, seq(SLOTS, i requires 0 <= i < SLOTS =>
      if i in slots then RetiredEntry(tb.entries[i]) else tb.entries[i]))
  }

  /** The first slot at or after `i` that is neither active nor permanently retired. */
  function FreeSlot<T>(tb: Table<T>, i: nat): (s: nat)
    requires i <= SLOTS
    ensures i <= s <= SLOTS
    ensures s < SLOTS ==> !tb.entries[s].active && tb.entries[s].generation != 0
    ensures forall k :: i <= k < s ==> tb.entries[k].active || tb.entries[k].generation == 0
    decreases SLOTS - i
  {
    if i == SLOTS || (!tb.entries[i].active && tb.entries[i].generation != 0) then i
    else FreeSlot(tb, i + 1)
  }

  // --- the lazy validity walk ---

  /** Is every link above `e` still intact?  `hops` links have been followed already. */
  predicate Walk<T(==)>(w: World<T>, e: Entry<T>, hops: nat)
    decreases MAX_DEPTH - hops
  {
    e.parent.Some? ==>
      && e.depth != 0 && e.depth <= MAX_DEPTH && hops < MAX_DEPTH
      && e.parent.value in w
      && var up := w[e.parent.value];
      && e.parentIncarnation == up.incarnation
      && e.parentHandle != 0 && HandleGeneration(e.parentHandle) != 0
      && HandleSlot(e.parentHandle) < SLOTS
      && var p := up.entries[HandleSlot(e.parentHandle)];
      && p.active && p.generation == HandleGeneration(e.parentHandle) && p.depth + 1 == e.depth
      && Walk(w, p, hops + 1)
  }

  function Validate<T(==)>(w: World<T>, t: T, h: u64): (st: Status)
    ensures st == Ok ==> t in w && HandleSlot(h) < SLOTS
  {
    if t !in w || h == 0 || HandleGeneration(h) == 0 || HandleSlot(h) >= SLOTS then BadCap
    else
      var e := w[t].entries[HandleSlot(h)];
      if !e.active || e.generation != HandleGeneration(h) || !Walk(w, e, 0) then Revoked
      else Ok
  }

  function Held<T(==)>(w: World<T>, t: T, h: u64): Entry<T>
    requires Validate(w, t, h) == Ok
  {
    w[t].entries[HandleSlot(h)]
  }

  datatype Found = Found(status: Status, obj: u64, rights: Rights)

  function Lookup<T(==)>(w: World<T>, t: T, h: u64, required: Rights): Found {
    if !Known(required) then Found(Inval, 0, 0)
    else if Validate(w, t, h) != Ok then Found(Validate(w, t, h), 0, 0)
    else
      var e := Held(w, t, h);
      if e.rights & required != required then Found(Denied, 0, 0)
      else Found(Ok, e.obj, e.rights)
  }

  // --- operations ---

  datatype Op<T> =
    | Init(t: T)
    | Clear(t: T)
    | Mint(t: T, obj: u64, rights: Rights)
    | Restrict(t: T, source: u64, rights: Rights)
    | Transfer(t: T, source: u64, into: T, rights: Rights)
    | Revoke(t: T, handle: u64)
    | RevokeObject(t: T, obj: u64)
    | RevokeAll(t: T)

  datatype State<!T> = State(world: World<T>, next: u64)

  datatype Response = Response(status: Status, handle: u64, retired: nat)

  /** The 64-bit incarnation counter after one use, and the value drawn from it; zero is
      reserved, so a wrapped counter is drawn from twice. */
  function Draw(next: u64): (r: (u64, u64)) {
    var after := (next + 1) % U64;
    if next == 0 then (after, (after + 1) % U64) else (next, after)
  }

  /** The parent link a new entry stores: nothing for a root, else a table and a handle. */
  datatype Link<T> = Root | Child(table: T, handle: u64, depth: u8)

  function NewEntry<T(==)>(w: World<T>, generation: u32, obj: u64, rights: Rights,
                           link: Link<T>): Entry<T>
  {
    match link
    case Root => Entry(obj, rights, generation, true, 0, None, 0, 0)
    case Child(p, h, depth) =>
      Entry(obj, rights, generation, true, depth, Some(p),
            if p in w then w[p].incarnation else 0, h)
  }

  function MintLinked<T(==)>(w: World<T>, t: T, obj: u64, rights: Rights, link: Link<T>)
    : (World<T>, Response)
  {
    if t !in w || obj == 0 || !Known(rights) then (w, Response(Inval, 0, 0))
    else if link.Child? && link.depth > MAX_DEPTH then (w, Response(Inval, 0, 0))
    else
      var i := FreeSlot(w[t], 0);
      if i == SLOTS then (w, Response(NoMemory, 0, 0))
      else
        var g := w[t].entries[i].generation;
        var e := NewEntry(w, g, obj, rights, link);
        (w[t := RawTable(w[t].incarnation, w[t].entries[i := e])], Response(Ok, MakeHandle(i, g), 0))
  }

  function ChildOf<T>(e: Entry<T>, t: T, h: u64): Link<T> {
    Child(t, h, (e.depth + 1) % U8)
  }

  function ActiveSlots<T>(tb: Table<T>): set<nat> {
    set i: nat | i < SLOTS && tb.entries[i].active
  }

  function SlotsNaming<T>(tb: Table<T>, obj: u64): set<nat> {
    set i: nat | i < SLOTS && tb.entries[i].active && tb.entries[i].obj == obj
  }

  function InitIn<T(==)>(s: State<T>, t: T): State<T>
    requires t in s.world
  {
    var (value, next) := Draw(s.next);
    State(s.world[t := FreshTable(value)], next)
  }

  function RevokeIn<T(==)>(w: World<T>, t: T, h: u64): (World<T>, Status) {
    var st := Validate(w, t, h);
    if st != Ok then (w, st)
    else if Held(w, t, h).rights & REVOKE == 0 then (w, Denied)
    else (w[t := RetireSlots(w[t], {HandleSlot(h)})], Ok)
  }

  function RevokeObjectIn<T(==)>(w: World<T>, t: T, obj: u64): (World<T>, nat)
    requires t in w
  {
    if obj == 0 then (w, 0)
    else
      var slots := SlotsNaming(w[t], obj);
      (w[t := RetireSlots(w[t], slots)], |slots|)
  }

  function RevokeAllIn<T(==)>(w: World<T>, t: T): World<T>
    requires t in w
  {
    w[t := RetireSlots(w[t], ActiveSlots(w[t]))]
  }

  function Step<T(==)>(s: State<T>, op: Op<T>): (r: (State<T>, Response))
    ensures r.0.world.Keys == s.world.Keys
  {
    var w := s.world;
    match op
    case Init(t) => (if t in w then InitIn(s, t) else s, Response(Ok, 0, 0))
    case Clear(t) =>
      (if t in w then State(w[t := ZeroTable()], s.next) else s, Response(Ok, 0, 0))
    case Mint(t, obj, rights) =>
      var (w', r) := MintLinked(w, t, obj, rights, Root);
      (State(w', s.next), r)
    case Restrict(t, source, rights) =>
      var (w', r) := Derive(w, t, source, t, rights, false);
      (State(w', s.next), r)
    case Transfer(t, source, into, rights) =>
      var (w', r) := Derive(w, t, source, into, rights, true);
      (State(w', s.next), r)
    case Revoke(t, h) =>
      var (w', st) := RevokeIn(w, t, h);
      (State(w', s.next), Response(st, 0, 0))
    case RevokeObject(t, obj) =>
      if t !in w then (s, Response(Ok, 0, 0))
      else
        var (w', retired) := RevokeObjectIn(w, t, obj);
        (State(w', s.next), Response(Ok, 0, retired))
    case RevokeAll(t) =>
      (if t in w then State(RevokeAllIn(w, t), s.next) else s, Response(Ok, 0, 0))
  }

  /** Restrict derives inside one table; transfer derives into another and needs TRANSFER. */
  function Derive<T(==)>(w: World<T>, t: T, source: u64, into: T, rights: Rights, crossing: bool)
    : (World<T>, Response)
  {
    if (crossing && into !in w) || !Known(rights) then (w, Response(Inval, 0, 0))
    else
      var st := Validate(w, t, source);
      if st != Ok then (w, Response(st, 0, 0))
      else
        var e := Held(w, t, source);
        if crossing && e.rights & TRANSFER == 0 then (w, Response(Denied, 0, 0))
        else if !Contained(rights, e.rights) then (w, Response(Denied, 0, 0))
        else MintLinked(w, into, e.obj, rights, ChildOf(e, t, source))
  }

  // --- clean exit and restart ---

  datatype Saved = Saved(obj: u64, rights: Rights)

  function Pair<T>(e: Entry<T>): Saved { Saved(e.obj, e.rights) }

  /** The active slots from `i` on, in order, as long as there is room. */
  function Snapshot<T>(tb: Table<T>, i: nat, room: nat): (saved: seq<Saved>)
    requires i <= SLOTS
    ensures |saved| <= room
    decreases SLOTS - i
  {
    if i == SLOTS || room == 0 then []
    else if tb.entries[i].active then [Pair(tb.entries[i])] + Snapshot(tb, i + 1, room - 1)
    else Snapshot(tb, i + 1, room)
  }

  /** Mint what was saved as roots, up to the first refusal. */
  function Remint<T(==)>(w: World<T>, t: T, saved: seq<Saved>): (World<T>, Status)
    decreases |saved|
  {
    if saved == [] then (w, Ok)
    else
      var (w', r) := MintLinked(w, t, saved[0].obj, saved[0].rights, Root);
      if r.status != Ok then (w', NoMemory) else Remint(w', t, saved[1..])
  }
}
