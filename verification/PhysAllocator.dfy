/** The boot-time page allocator: usable E820 entries minus the reserved byte ranges, cut into at
    most 16 page ranges, then handed out one page at a time. */
module PhysAllocators {
  import opened Words

  const PAGE: nat := 0x1000
  const FLOOR: nat := 0x10000
  const MAX_RANGES: nat := 16
  const ENTRY_SIZE: nat := 24

  datatype E820Entry = E820Entry(base: u64, length: u64, kind: u32)
  datatype Range = Range(start: u64, end: u64)

  /** The hand-off of the loader; `entries` is what the map at mapAddr holds, stride by stride. */
  datatype BootInfo = BootInfo(
    mapAddr: u64, entrySize: u32, entries: seq<E820Entry>,
    kernel: Range, staging: Range, initrd: Range)

  ghost predicate WellFormed(b: BootInfo) { |b.entries| < U32 }

  // --- page arithmetic ---

  predicate Aligned(v: int) { v % PAGE == 0 }

  function Down(v: u64): u64 { v - v % PAGE }

  function Up(v: u64): u64 { if v > U64 - 1 - 0xfff then 0 else Down(v + 0xfff) }

  // --- what may be handed out ---

  /** The page at `p` shares a byte with `r`. */
  predicate Touches(p: int, r: Range) { p < r.end && r.start < p + PAGE }

  /** Every page from `from` up to `to` touches `hole`. */
  ghost predicate Blocks(hole: Range, from: u64, to: u64) {
    forall p | Aligned(p) && from <= p < to :: Touches(p, hole)
  }

  predicate Usable(e: E820Entry) {
    e.kind == 1 && e.length != 0 && e.base + e.length < U64
  }

  /** `p` is a whole page of usable entry `e`, above the firmware scratch area, and no reserved
      byte lies in it. */
  predicate FreeIn(p: int, e: E820Entry, reserved: seq<Range>) {
    && Usable(e) && Aligned(p) && FLOOR <= p
    && e.base <= p && p + PAGE <= e.base + e.length
    && forall r | r in reserved :: !Touches(p, r)
  }

  function ReservedRanges(b: BootInfo): (rs: seq<Range>)
    requires WellFormed(b)
    ensures |rs| <= 4
  {
    (if b.kernel.start < b.kernel.end then [b.kernel] else [])
    + (if b.staging.start < b.staging.end then [b.staging] else [])
    + (if b.initrd.start < b.initrd.end then [b.initrd] else [])
    + (if |b.entries| * b.entrySize + b.mapAddr < U64
       then [Range(b.mapAddr, b.mapAddr + |b.entries| * b.entrySize)] else [])
  }

  // --- the reserved range as a run of pages ---

  function FirstPage(r: Range): u64 { Down(r.start) }

  function PageEnd(r: Range): u64 { if Up(r.end) == 0 then U64 - PAGE else Up(r.end) }

  lemma TouchesIsPageRun(p: int, r: Range)
    requires Aligned(p) && 0 <= p && p + PAGE < U64 && r.start < r.end
    ensures Touches(p, r) <==> FirstPage(r) <= p < PageEnd(r)
  {
  }

  // --- the ranges as a whole ---

  predicate Covers(r: Range, p: int) { Aligned(p) && r.start <= p < r.end }

  /** Range k was cut from entry owners[k]: aligned, non-empty, all of it free, and apart from
      the other ranges of the same entry. */
  ghost predicate Cut(ranges: seq<Range>, owners: seq<nat>, entries: seq<E820Entry>, reserved: seq<Range>) {
    && |owners| == |ranges|
    && (forall k | 0 <= k < |ranges| ::
          && owners[k] < |entries|
          && Aligned(ranges[k].start) && Aligned(ranges[k].end) && ranges[k].start < ranges[k].end
          && ranges[k].end <= U64 - PAGE)
    && (forall k, p | 0 <= k < |ranges| && Covers(ranges[k], p) ::
          FreeIn(p, entries[owners[k]], reserved))
    && (forall k, m | 0 <= k < m < |ranges| && owners[k] == owners[m] :: ranges[k].end <= ranges[m].start)
  }

  ghost predicate CoveredFor(ranges: seq<Range>, owners: seq<nat>, i: nat, p: int)
    requires |owners| == |ranges|
  {
    exists k :: 0 <= k < |ranges| && owners[k] == i && Covers(ranges[k], p)
  }

  /** Every free page of the first n entries lies in a range cut from that entry. */
  ghost predicate Complete(ranges: seq<Range>, owners: seq<nat>, entries: seq<E820Entry>, n: nat, reserved: seq<Range>)
    requires |owners| == |ranges| && n <= |entries|
  {
    forall i, p {:trigger CoveredFor(ranges, owners, i, p)} |
      0 <= i < n && FreeIn(p, entries[i], reserved) :: CoveredFor(ranges, owners, i, p)
  }

  /** Range `r` of entry `i` may be appended. */
  ghost predicate Extends(ranges: seq<Range>, owners: seq<nat>, entries: seq<E820Entry>, reserved: seq<Range>,
                          r: Range, i: nat)
  {
    && |owners| == |ranges| && i < |entries|
    && Aligned(r.start) && Aligned(r.end) && r.start < r.end <= U64 - PAGE
    && (forall p | Covers(r, p) :: FreeIn(p, entries[i], reserved))
    && (forall k | 0 <= k < |ranges| && owners[k] == i :: ranges[k].end <= r.start)
  }

  lemma AppendKeepsCut(ranges: seq<Range>, owners: seq<nat>, entries: seq<E820Entry>, reserved: seq<Range>,
                       r: Range, i: nat)
    requires Cut(ranges, owners, entries, reserved) && Extends(ranges, owners, entries, reserved, r, i)
    ensures Cut(ranges + [r], owners + [i], entries, reserved)
  {
    var ranges', owners' := ranges + [r], owners + [i];
    forall k, p | 0 <= k < |ranges'| && Covers(ranges'[k], p)
      ensures FreeIn(p, entries[owners'[k]], reserved)
    {
      assert k == |ranges| ==> Covers(r, p);
    }
  }

  lemma AppendKeepsCover(ranges: seq<Range>, owners: seq<nat>, r: Range, i: nat, j: nat, p: int)
    requires |owners| == |ranges|
    ensures CoveredFor(ranges, owners, j, p) ==> CoveredFor(ranges + [r], owners + [i], j, p)
    ensures Covers(r, p) ==> CoveredFor(ranges + [r], owners + [i], i, p)
  {
    if CoveredFor(ranges, owners, j, p) {
      var k :| 0 <= k < |ranges| && owners[k] == j && Covers(ranges[k], p);
      assert (owners + [i])[k] == j && Covers((ranges + [r])[k], p);
    }
    if Covers(r, p) {
      assert (owners + [i])[|ranges|] == i && Covers((ranges + [r])[|ranges|], p);
    }
  }

  /** Entry `i` has been carved up to `cursor`, and the entries before it entirely. */
  ghost predicate Carved(ranges: seq<Range>, owners: seq<nat>, entries: seq<E820Entry>, reserved: seq<Range>,
                         i: nat, cursor: u64)
  {
    && i < |entries| && Cut(ranges, owners, entries, reserved)
    && Complete(ranges, owners, entries, i, reserved)
    && (forall k | 0 <= k < |ranges| && owners[k] == i :: ranges[k].end <= cursor)
    && (forall p {:trigger CoveredFor(ranges, owners, i, p)} |
          FreeIn(p, entries[i], reserved) && p < cursor :: CoveredFor(ranges, owners, i, p))
  }

  lemma AppendCarved(ranges: seq<Range>, owners: seq<nat>, entries: seq<E820Entry>, reserved: seq<Range>,
                     i: nat, cursor: u64, next: u64)
    requires Carved(ranges, owners, entries, reserved, i, cursor) && cursor < next
    requires Extends(ranges, owners, entries, reserved, Range(cursor, next), i)
    ensures Carved(ranges + [Range(cursor, next)], owners + [i], entries, reserved, i, next)
  {
    var r := Range(cursor, next);
    AppendKeepsCut(ranges, owners, entries, reserved, r, i);
    forall j, p | 0 <= j < i && FreeIn(p, entries[j], reserved)
      ensures CoveredFor(ranges + [r], owners + [i], j, p)
    {
      AppendKeepsCover(ranges, owners, r, i, j, p);
    }
    forall p | FreeIn(p, entries[i], reserved) && p < next
      ensures CoveredFor(ranges + [r], owners + [i], i, p)
    {
      AppendKeepsCover(ranges, owners, r, i, i, p);
    }
  }

  lemma SkipCarved(ranges: seq<Range>, owners: seq<nat>, entries: seq<E820Entry>, reserved: seq<Range>,
                   i: nat, cursor: u64, resume: u64)
    requires Carved(ranges, owners, entries, reserved, i, cursor) && cursor <= resume
    requires forall p | FreeIn(p, entries[i], reserved) :: p < cursor || resume <= p
    ensures Carved(ranges, owners, entries, reserved, i, resume)
  {
  }

  /** Within an entry's page span, pages up to the next hole are free. */
  lemma GapExtends(ranges: seq<Range>, owners: seq<nat>, entries: seq<E820Entry>, reserved: seq<Range>,
                   i: nat, cursor: u64, next: u64)
    requires Carved(ranges, owners, entries, reserved, i, cursor)
    requires Aligned(cursor) && Aligned(next) && cursor < next && Usable(entries[i])
    requires FLOOR <= cursor && entries[i].base <= cursor && next <= Down(entries[i].base + entries[i].length)
    requires forall p, r | r in reserved && Aligned(p) && cursor <= p < next :: !Touches(p, r)
    ensures Extends(ranges, owners, entries, reserved, Range(cursor, next), i)
  {
    var e := entries[i];
    DownBounds(e.base + e.length);
    forall p | Covers(Range(cursor, next), p) ensures FreeIn(p, e, reserved) {
      PageFits(p, next);
    }
  }

  lemma PageFits(p: int, end: int)
    requires Aligned(p) && Aligned(end) && p < end
    ensures p + PAGE <= end
  {
  }

  lemma DownBounds(v: u64)
    ensures Aligned(Down(v)) && Down(v) <= v < Down(v) + PAGE && Down(v) <= U64 - PAGE
  {
  }

  /** Between the cursor and the lowest hole no reserved range touches a page. */
  lemma GapIsClear(cursor: u64, next: u64, reserved: seq<Range>)
    requires next <= U64 - PAGE && Aligned(next) && forall r | r in reserved :: r.start < r.end
    requires forall j | 0 <= j < |reserved| :: PageEnd(reserved[j]) <= cursor || FirstPage(reserved[j]) >= next
    ensures forall p, r | r in reserved && Aligned(p) && cursor <= p < next :: !Touches(p, r)
  {
    forall p, r | r in reserved && Aligned(p) && cursor <= p < next ensures !Touches(p, r) {
      PageFits(p, next);
      TouchesIsPageRun(p, r);
    }
  }

  lemma HoleBlocks(hole: Range, from: u64, resume: u64)
    requires Aligned(resume) && resume <= U64 - PAGE && hole.start < hole.end
    requires FirstPage(hole) <= from && resume <= PageEnd(hole)
    ensures Blocks(hole, from, resume)
  {
    forall p | Aligned(p) && from <= p < resume ensures Touches(p, hole) {
      PageFits(p, resume);
      TouchesIsPageRun(p, hole);
    }
  }

  /** A hole further on: the pages before it are free, the ones it blocks are not. */
  lemma CarveToHole(ranges: seq<Range>, owners: seq<nat>, entries: seq<E820Entry>, reserved: seq<Range>,
                    i: nat, cursor: u64, end: u64, next: u64, resume: u64, hole: Range)
    requires Carved(ranges, owners, entries, reserved, i, cursor) && Usable(entries[i])
    requires FLOOR <= cursor && entries[i].base <= cursor && end == Down(entries[i].base + entries[i].length)
    requires Aligned(cursor) && Aligned(next) && cursor < next <= end
    requires forall p, r | r in reserved && Aligned(p) && cursor <= p < next :: !Touches(p, r)
    requires next < end ==> (next < resume && hole in reserved && Blocks(hole, next, resume))
    ensures Extends(ranges, owners, entries, reserved, Range(cursor, next), i)
    ensures Carved(ranges + [Range(cursor, next)], owners + [i], entries, reserved, i,
                   if next < end then resume else end)
  {
    GapExtends(ranges, owners, entries, reserved, i, cursor, next);
    AppendCarved(ranges, owners, entries, reserved, i, cursor, next);
    if next < end {
      HoleSkips(entries[i], reserved, next, resume, hole);
      SkipCarved(ranges + [Range(cursor, next)], owners + [i], entries, reserved, i, next, resume);
    }
  }

  class PhysAllocator {
    var nextPage: u64
    var endPage: u64
    var rangeCount: nat
    var currentRange: nat
    const ranges: array<Range>
    ghost var owners: seq<nat>

    constructor ()
      ensures ranges.Length == MAX_RANGES && fresh(ranges)
    {
      ranges := new Range[MAX_RANGES](_ => Range(0, 0));
    }

    ghost predicate Valid()
      reads this, ranges
    {
      && ranges.Length == MAX_RANGES && rangeCount <= MAX_RANGES && currentRange <= rangeCount
      && (forall k | 0 <= k < rangeCount ::
            Aligned(ranges[k].start) && Aligned(ranges[k].end) && ranges[k].end <= U64 - PAGE)
    }

    ghost function Ranges(): seq<Range>
      requires Valid()
      reads this, ranges
    {
      ranges[..rangeCount]
    }

    /** The two mirror fields show the current range, or zero when none is left. */
    ghost predicate Mirrors()
      requires Valid()
      reads this, ranges
    {
      if currentRange < rangeCount
      then nextPage == ranges[currentRange].start && endPage == ranges[currentRange].end
      else nextPage == 0 && endPage == 0
    }

    method Sync()
      requires Valid()
      modifies this`nextPage, this`endPage
      ensures Mirrors()
    {
      if currentRange < rangeCount {
        nextPage := ranges[currentRange].start;
        endPage := ranges[currentRange].end;
      } else {
        nextPage := 0;
        endPage := 0;
      }
    }

    /** The lowest reserved run that still matters to [cursor, end): where it begins and where
        carving resumes; (end, end) when nothing is left to avoid. */
    static method NextHole(cursor: u64, end: u64, reserved: seq<Range>)
      returns (next: u64, resume: u64, ghost hole: Range)
      requires Aligned(cursor) && Aligned(end) && cursor < end <= U64 - PAGE
      requires forall r | r in reserved :: r.start < r.end
      ensures Aligned(next) && Aligned(resume) && next <= end && cursor < resume <= end
      ensures forall p, r | r in reserved && Aligned(p) && cursor <= p < next :: !Touches(p, r)
      ensures next < end ==>
                (next < resume && hole in reserved && Blocks(hole, if next > cursor then next else cursor, resume))
    {
      next, resume := end, end;
      hole := Range(0, 0);
      for i := 0 to |reserved|
        invariant Aligned(next) && Aligned(resume) && next <= end && cursor < resume <= end
        invariant forall j | 0 <= j < i ::
                    PageEnd(reserved[j]) <= cursor || FirstPage(reserved[j]) >= next
        invariant next < end ==>
                    hole in reserved && FirstPage(hole) == next < resume <= PageEnd(hole)
      {
        var rs, re := FirstPage(reserved[i]), PageEnd(reserved[i]);
        if re <= cursor || rs >= end {
          continue;
        }
        if rs < next {
          next := rs;
          resume := if re < end then re else end;
          hole := reserved[i];
        }
      }
      GapIsClear(cursor, next, reserved);
      if next < end {
        HoleBlocks(hole, if next > cursor then next else cursor, resume);
      }
    }

    /** Appends [s, e) when it is not empty and a slot is left. */
    method Add(s: u64, e: u64, ghost i: nat, ghost entries: seq<E820Entry>, ghost reserved: seq<Range>)
      requires Valid() && Cut(Ranges(), owners, entries, reserved)
      requires s < e ==> Extends(Ranges(), owners, entries, reserved, Range(s, e), i)
      modifies this`rangeCount, this`owners, ranges
      ensures Valid() && Cut(Ranges(), owners, entries, reserved)
      ensures if s < e && old(rangeCount) < MAX_RANGES
              then Ranges() == old(Ranges()) + [Range(s, e)] && owners == old(owners) + [i]
              else Ranges() == old(Ranges()) && owners == old(owners)
    {
      if s < e && rangeCount < MAX_RANGES {
        AppendKeepsCut(Ranges(), owners, entries, reserved, Range(s, e), i);
        ranges[rangeCount] := Range(s, e);
        rangeCount := rangeCount + 1;
        owners := owners + [i];
        assert Ranges() == old(Ranges()) + [Range(s, e)];
      }
    }

    /** The loop invariant of carving: entry `i` is done up to `cursor`, inside its page span. */
    ghost predicate Carving(i: nat, entries: seq<E820Entry>, reserved: seq<Range>, cursor: u64, end: u64)
      reads this, ranges
    {
      && i < |entries| && Valid() && Usable(entries[i])
      && Aligned(cursor) && FLOOR <= cursor <= end && entries[i].base <= cursor
      && end == Down(entries[i].base + entries[i].length)
      && Carved(Ranges(), owners, entries, reserved, i, cursor)
      && (forall k | 0 <= k < rangeCount :: owners[k] <= i)
      && (forall r | r in reserved :: r.start < r.end)
    }

    /** One turn: find the lowest hole, keep what precedes it, resume behind it. */
    method CarveStep(ghost i: nat, ghost entries: seq<E820Entry>, reserved: seq<Range>, cursor: u64, end: u64)
      returns (resumeAt: u64)
      requires Carving(i, entries, reserved, cursor, end) && cursor < end && rangeCount < MAX_RANGES
      modifies this`rangeCount, this`owners, ranges
      ensures Carving(i, entries, reserved, resumeAt, end) && cursor < resumeAt
    {
      DownBounds(entries[i].base + entries[i].length);
      var next, resume, hole := NextHole(cursor, end, reserved);
      if next > cursor {
        CarveToHole(Ranges(), owners, entries, reserved, i, cursor, end, next, resume, hole);
        Add(cursor, if next < end then next else end, i, entries, reserved);
        if next >= end {
          return end;
        }
      } else {
        HoleSkips(entries[i], reserved, cursor, resume, hole);
        SkipCarved(Ranges(), owners, entries, reserved, i, cursor, resume);
      }
      // The page-wise fallback of the source, for a hole that makes no progress, is never taken.
      assert resume > cursor;
      resumeAt := resume;
    }

    /** Cuts the span of entry `i` around the reserved ranges while slots are left. */
    method CarveSpan(ghost i: nat, ghost entries: seq<E820Entry>, reserved: seq<Range>, s: u64, end: u64)
      requires Carving(i, entries, reserved, s, end)
      modifies this`rangeCount, this`owners, ranges
      ensures rangeCount < MAX_RANGES ==> Carving(i, entries, reserved, end, end)
      ensures exists at :: Carving(i, entries, reserved, at, end)
    {
      var cursor: u64 := s;
      while cursor < end && rangeCount < MAX_RANGES
        invariant Carving(i, entries, reserved, cursor, end)
        decreases end - cursor
      {
        cursor := CarveStep(i, entries, reserved, cursor, end);
      }
    }

    /** Boot: cut every usable entry, in order, until the slots run out. */
    method Init(b: BootInfo) returns (ok: bool)
      requires WellFormed(b) && ranges.Length == MAX_RANGES
      modifies this, ranges
      ensures Valid() && Mirrors() && currentRange == 0 && ok == (rangeCount != 0)
      ensures b.mapAddr == 0 || b.entrySize < ENTRY_SIZE ==> rangeCount == 0
      ensures Cut(Ranges(), owners, b.entries, ReservedRanges(b))
      ensures b.mapAddr != 0 && b.entrySize >= ENTRY_SIZE && rangeCount < MAX_RANGES ==>
                Complete(Ranges(), owners, b.entries, |b.entries|, ReservedRanges(b))
    {
      rangeCount, currentRange, nextPage, endPage, owners := 0, 0, 0, 0, [];
      if b.mapAddr == 0 || b.entrySize < ENTRY_SIZE {
        return false;
      }
      var reserved := ReservedRanges(b);
      for i := 0 to |b.entries|
        invariant Valid() && currentRange == 0 && Cut(Ranges(), owners, b.entries, reserved)
        invariant forall k | 0 <= k < rangeCount :: owners[k] < i
        invariant rangeCount < MAX_RANGES ==> Complete(Ranges(), owners, b.entries, i, reserved)
      {
        CarveEntry(i, b.entries, b.entries[i], reserved);
      }
      Sync();
      ok := rangeCount != 0;
    }

    /** The pages still to be handed out, in order. */
    ghost function Pending(): seq<int>
      requires Valid()
      reads this, ranges
    {
      Pages(ranges[currentRange..rangeCount])
    }

    /** Hands out the first pending page, or zero for ever once none is left. */
    method AllocPage() returns (page: u64)
      requires Valid()
      modifies this, ranges
      ensures Valid() && rangeCount == old(rangeCount)
      ensures old(Pending()) == [] ==> page == 0 && Pending() == []
      ensures old(Pending()) != [] ==> page == old(Pending())[0] && Pending() == old(Pending())[1..]
      ensures old(Mirrors()) ==> Mirrors()
    {
      while currentRange < rangeCount
        invariant Valid() && rangeCount == old(rangeCount) && ranges[..] == old(ranges[..])
        invariant Pending() == old(Pending()) && (old(Mirrors()) ==> Mirrors())
        decreases rangeCount - currentRange
      {
        var r := ranges[currentRange];
        ghost var rest := ranges[currentRange + 1..rangeCount];
        assert ranges[currentRange..rangeCount] == [r] + rest;
        if r.start < r.end {
          PageFits(r.start, r.end);
          ranges[currentRange] := Range(r.start + PAGE, r.end);
          assert ranges[currentRange..rangeCount] == [Range(r.start + PAGE, r.end)] + rest;
          Sync();
          return r.start;
        }
        currentRange := currentRange + 1;
        Sync();
      }
      assert ranges[currentRange..rangeCount] == [];
      page := 0;
    }

    method CarveEntry(ghost i: nat, ghost entries: seq<E820Entry>, e: E820Entry, reserved: seq<Range>)
      requires i < |entries| && entries[i] == e
      requires Valid() && Cut(Ranges(), owners, entries, reserved)
      requires forall k | 0 <= k < rangeCount :: owners[k] < i
      requires rangeCount < MAX_RANGES ==> Complete(Ranges(), owners, entries, i, reserved)
      requires forall r | r in reserved :: r.start < r.end
      modifies this`rangeCount, this`owners, ranges
      ensures Valid() && Cut(Ranges(), owners, entries, reserved)
      ensures forall k | 0 <= k < rangeCount :: owners[k] <= i
      ensures rangeCount < MAX_RANGES ==> Complete(Ranges(), owners, entries, i + 1, reserved)
    {
      SpanExact(e, reserved);
      if e.kind != 1 || e.length == 0 || e.base > U64 - 1 - e.length {
        return;
      }
      var s := Up(if e.base < FLOOR then FLOOR else e.base);
      var end := Down(e.base + e.length);
      if s == 0 || s >= end {
        return;
      }
      if rangeCount < MAX_RANGES {
        CarveSpan(i, entries, reserved, s, end);
      }
    }
  }

  /** The free pages of an entry all lie in its page span. */
  lemma SpanExact(e: E820Entry, reserved: seq<Range>)
    ensures Usable(e) ==>
              var s := Up(if e.base < FLOOR then FLOOR else e.base);
              && Aligned(s) && (s != 0 ==> FLOOR <= s && e.base <= s)
              && Aligned(Down(e.base + e.length))
              && forall p | FreeIn(p, e, reserved) :: s != 0 && s <= p < Down(e.base + e.length)
  {
    if Usable(e) {
      var low := if e.base < FLOOR then FLOOR else e.base;
      UpBounds(low);
      DownBounds(e.base + e.length);
      forall p | FreeIn(p, e, reserved)
        ensures Up(low) != 0 && Up(low) <= p < Down(e.base + e.length)
      {
        UpIsLeast(low, p);
        PageBelowDown(p, e.base + e.length);
      }
    }
  }

  lemma UpBounds(v: u64)
    ensures Aligned(Up(v)) && (Up(v) != 0 ==> v <= Up(v))
  {
  }

  lemma UpIsLeast(v: u64, p: int)
    requires Aligned(p) && v <= p && p + PAGE < U64 && 0 < v
    ensures Up(v) != 0 && Up(v) <= p
  {
  }

  lemma PageBelowDown(p: int, v: u64)
    requires Aligned(p) && p + PAGE <= v
    ensures p < Down(v)
  {
  }

  lemma HoleSkips(e: E820Entry, reserved: seq<Range>, from: u64, resume: u64, hole: Range)
    requires hole in reserved && Blocks(hole, from, resume)
    ensures forall p | FreeIn(p, e, reserved) :: p < from || resume <= p
  {
  }

  // --- the pages of the ranges, and what they amount to ---

  function PagesOf(start: int, end: int): seq<int>
    decreases end - start
  {
    if start < end then [start] + PagesOf(start + PAGE, end) else []
  }

  function Pages(ranges: seq<Range>): seq<int> {
    if ranges == [] then [] else PagesOf(ranges[0].start, ranges[0].end) + Pages(ranges[1..])
  }

  lemma {:induction false} PagesOfExact(start: int, end: int, p: int)
    requires Aligned(start) && Aligned(end)
    ensures p in PagesOf(start, end) <==> Aligned(p) && start <= p < end
    ensures NoDup(PagesOf(start, end))
    decreases end - start
  {
    if start < end {
      PagesOfExact(start + PAGE, end, p);
      PagesOfExact(start + PAGE, end, start);
      NextAligned(start, p);
    }
  }

  lemma NextAligned(start: int, p: int)
    requires Aligned(start)
    ensures Aligned(start + PAGE)
    ensures Aligned(p) && start < p ==> start + PAGE <= p
  {
  }

  ghost predicate AllAligned(ranges: seq<Range>) {
    forall k | 0 <= k < |ranges| :: Aligned(ranges[k].start) && Aligned(ranges[k].end)
  }

  ghost predicate Covered(ranges: seq<Range>, p: int) {
    exists k :: 0 <= k < |ranges| && Covers(ranges[k], p)
  }

  /** No page lies in two of the ranges. */
  ghost predicate Apart(ranges: seq<Range>) {
    forall k, m, p | 0 <= k < m < |ranges| && Covers(ranges[k], p) :: !Covers(ranges[m], p)
  }

  lemma {:induction false} PagesExact(ranges: seq<Range>, p: int)
    requires AllAligned(ranges)
    ensures p in Pages(ranges) <==> Covered(ranges, p)
  {
    if ranges != [] {
      PagesOfExact(ranges[0].start, ranges[0].end, p);
      PagesExact(ranges[1..], p);
      if Covered(ranges[1..], p) {
        var k :| 0 <= k < |ranges[1..]| && Covers(ranges[1..][k], p);
        assert Covers(ranges[k + 1], p);
      }
      if Covered(ranges, p) && !Covers(ranges[0], p) {
        var k :| 0 <= k < |ranges| && Covers(ranges[k], p);
        assert Covers(ranges[1..][k - 1], p);
      }
    }
  }

  lemma NoDupConcat<X>(a: seq<X>, b: seq<X>)
    ensures NoDup(a + b) <==> NoDup(a) && NoDup(b) && forall x | x in a :: x !in b
  {
    if NoDup(a + b) {
      forall i, j | 0 <= i < j < |a| ensures a[i] != a[j] { assert (a + b)[i] != (a + b)[j]; }
      forall i, j | 0 <= i < j < |b| ensures b[i] != b[j] { assert (a + b)[|a| + i] != (a + b)[|a| + j]; }
      forall i, j | 0 <= i < |a| && 0 <= j < |b| ensures a[i] != b[j] { assert (a + b)[i] != (a + b)[|a| + j]; }
    } else {
      var i, j :| 0 <= i < j < |a + b| && (a + b)[i] == (a + b)[j];
      assert i < |a| <= j ==> a[i] in a && b[j - |a|] in b;
    }
  }

  lemma {:induction false} NoDupPages(ranges: seq<Range>)
    requires AllAligned(ranges)
    ensures NoDup(Pages(ranges)) <==> Apart(ranges)
  {
    if ranges != [] {
      var head, tail := ranges[0], ranges[1..];
      NoDupPages(tail);
      PagesOfExact(head.start, head.end, 0);
      NoDupConcat(PagesOf(head.start, head.end), Pages(tail));
      forall p ensures p in PagesOf(head.start, head.end) <==> Covers(head, p) {
        PagesOfExact(head.start, head.end, p);
      }
      forall p ensures p in Pages(tail) <==> Covered(tail, p) {
        PagesExact(tail, p);
      }
      HeadApart(ranges);
      assert Pages(ranges) == PagesOf(head.start, head.end) + Pages(tail);
    }
  }

  lemma HeadApart(ranges: seq<Range>)
    requires ranges != []
    ensures Apart(ranges) <==>
              Apart(ranges[1..]) && forall p | Covers(ranges[0], p) :: !Covered(ranges[1..], p)
  {
    var tail := ranges[1..];
    if Apart(ranges) {
      forall k, m, p | 0 <= k < m < |tail| && Covers(tail[k], p) ensures !Covers(tail[m], p) {
        assert Covers(ranges[k + 1], p);
      }
    }
    if Apart(tail) && forall p | Covers(ranges[0], p) :: !Covered(tail, p) {
      forall k, m, p | 0 <= k < m < |ranges| && Covers(ranges[k], p) ensures !Covers(ranges[m], p) {
        if k == 0 {
          assert ranges[m] == tail[m - 1];
        } else {
          assert Covers(tail[k - 1], p) && ranges[m] == tail[m - 1];
        }
      }
    }
  }

  // --- the promises, for whatever Init cut ---

  ghost predicate FreeSomewhere(p: int, entries: seq<E820Entry>, reserved: seq<Range>) {
    exists i :: 0 <= i < |entries| && FreeIn(p, entries[i], reserved)
  }

  /** Nothing but free pages is ever offered; with a slot to spare, every free page is. */
  lemma OffersExactlyTheFreePages(ranges: seq<Range>, owners: seq<nat>, entries: seq<E820Entry>,
                                  reserved: seq<Range>, p: int)
    requires Cut(ranges, owners, entries, reserved)
    ensures p in Pages(ranges) ==> FreeSomewhere(p, entries, reserved)
    ensures Complete(ranges, owners, entries, |entries|, reserved) ==>
              (FreeSomewhere(p, entries, reserved) <==> p in Pages(ranges))
  {
    PagesExact(ranges, p);
    if Covered(ranges, p) {
      var k :| 0 <= k < |ranges| && Covers(ranges[k], p);
      assert FreeIn(p, entries[owners[k]], reserved);
    }
    if Complete(ranges, owners, entries, |entries|, reserved) && FreeSomewhere(p, entries, reserved) {
      var i :| 0 <= i < |entries| && FreeIn(p, entries[i], reserved);
      assert CoveredFor(ranges, owners, i, p);
    }
  }

  /** No page is free in two different entries of the map. */
  ghost predicate EntriesApart(entries: seq<E820Entry>, reserved: seq<Range>) {
    forall i, j, p | 0 <= i < j < |entries| && FreeIn(p, entries[i], reserved) :: !FreeIn(p, entries[j], reserved)
  }

  lemma RangeIsFree(ranges: seq<Range>, owners: seq<nat>, entries: seq<E820Entry>, reserved: seq<Range>,
                    m: nat, p: int)
    requires Cut(ranges, owners, entries, reserved) && m < |ranges|
    ensures Covers(ranges[m], p) ==> FreeIn(p, entries[owners[m]], reserved)
  {
  }

  lemma FreeIsCovered(ranges: seq<Range>, owners: seq<nat>, entries: seq<E820Entry>, reserved: seq<Range>,
                      j: nat, p: int)
    requires |owners| == |ranges| && j < |entries| && Complete(ranges, owners, entries, |entries|, reserved)
    ensures FreeIn(p, entries[j], reserved) ==> CoveredFor(ranges, owners, j, p)
  {
  }

  lemma NotCoveredFor(ranges: seq<Range>, owners: seq<nat>, k: nat, j: nat, p: int)
    requires |owners| == |ranges| && Apart(ranges)
    requires k < |ranges| && Covers(ranges[k], p) && owners[k] != j
    ensures !CoveredFor(ranges, owners, j, p)
  {
    forall m | 0 <= m < |ranges| && owners[m] == j ensures !Covers(ranges[m], p) {
    }
  }

  /** The exact condition for handing out every page at most once. */
  lemma HandsOutOnceIffEntriesApart(ranges: seq<Range>, owners: seq<nat>, entries: seq<E820Entry>,
                                    reserved: seq<Range>)
    requires Cut(ranges, owners, entries, reserved)
    ensures EntriesApart(entries, reserved) ==> NoDup(Pages(ranges))
    ensures Complete(ranges, owners, entries, |entries|, reserved) ==>
              (NoDup(Pages(ranges)) <==> EntriesApart(entries, reserved))
  {
    NoDupPages(ranges);
    if EntriesApart(entries, reserved) {
      forall k, m, p | 0 <= k < m < |ranges| && Covers(ranges[k], p) ensures !Covers(ranges[m], p) {
        assert FreeIn(p, entries[owners[k]], reserved);
        RangeIsFree(ranges, owners, entries, reserved, m, p);
      }
    }
    if Complete(ranges, owners, entries, |entries|, reserved) && Apart(ranges) {
      forall i, j, p | 0 <= i < j < |entries| && FreeIn(p, entries[i], reserved)
        ensures !FreeIn(p, entries[j], reserved)
      {
        assert CoveredFor(ranges, owners, i, p);
        var k :| 0 <= k < |ranges| && owners[k] == i && Covers(ranges[k], p);
        NotCoveredFor(ranges, owners, k, j, p);
        FreeIsCovered(ranges, owners, entries, reserved, j, p);
      }
    }
  }

  // --- how often one page is handed out ---

  /** The entries of the map that list the page. */
  ghost function Listing(p: int, entries: seq<E820Entry>, reserved: seq<Range>): set<nat> {
    set i: nat | i < |entries| && FreeIn(p, entries[i], reserved)
  }

  /** The entries from which the page was cut. */
  ghost function OwnersOf(ranges: seq<Range>, owners: seq<nat>, p: int): set<nat>
    requires |owners| == |ranges|
  {
    if ranges == [] then {}
    else OwnersOf(ranges[1..], owners[1..], p) + if Covers(ranges[0], p) then {owners[0]} else {}
  }

  lemma {:induction false} OnceInNoDup(s: seq<int>, p: int)
    requires NoDup(s)
    ensures multiset(s)[p] == if p in s then 1 else 0
  {
    if s != [] {
      var front, last := s[..|s| - 1], s[|s| - 1];
      OnceInNoDup(front, p);
      assert s == front + [last];
      assert last !in front;
    }
  }

  lemma {:induction false} OwnersExactly(ranges: seq<Range>, owners: seq<nat>, p: int, i: nat)
    requires |owners| == |ranges|
    ensures i in OwnersOf(ranges, owners, p) <==> CoveredFor(ranges, owners, i, p)
  {
    if ranges != [] {
      var tail, rest := ranges[1..], owners[1..];
      OwnersExactly(tail, rest, p, i);
      if CoveredFor(tail, rest, i, p) {
        var k :| 0 <= k < |tail| && rest[k] == i && Covers(tail[k], p);
        assert owners[k + 1] == i && Covers(ranges[k + 1], p);
      }
      if CoveredFor(ranges, owners, i, p) && !(owners[0] == i && Covers(ranges[0], p)) {
        var k :| 0 <= k < |ranges| && owners[k] == i && Covers(ranges[k], p);
        assert rest[k - 1] == i && Covers(tail[k - 1], p);
      }
    }
  }

  /** Ranges of one entry share no page. */
  ghost predicate OwnApart(ranges: seq<Range>, owners: seq<nat>) {
    && |owners| == |ranges|
    && forall k, m | 0 <= k < m < |ranges| && owners[k] == owners[m] :: ranges[k].end <= ranges[m].start
  }

  lemma {:induction false} PagesCountOwners(ranges: seq<Range>, owners: seq<nat>, p: int)
    requires AllAligned(ranges) && OwnApart(ranges, owners)
    ensures multiset(Pages(ranges))[p] == |OwnersOf(ranges, owners, p)|
  {
    if ranges != [] {
      var head, tail, rest := ranges[0], ranges[1..], owners[1..];
      forall k, m | 0 <= k < m < |tail| && rest[k] == rest[m] ensures tail[k].end <= tail[m].start {
        assert owners[k + 1] == owners[m + 1];
      }
      PagesCountOwners(tail, rest, p);
      PagesOfExact(head.start, head.end, p);
      OnceInNoDup(PagesOf(head.start, head.end), p);
      OwnersExactly(tail, rest, p, owners[0]);
      forall k | 0 <= k < |tail| && rest[k] == owners[0] ensures Covers(head, p) ==> !Covers(tail[k], p) {
        assert owners[0] == owners[k + 1] && ranges[k + 1] == tail[k];
      }
      assert Covers(head, p) ==> !CoveredFor(tail, rest, owners[0], p);
    }
  }

  /** Page by page: no page is handed out more often than entries list it, and with a slot to spare
      each is handed out exactly that often. */
  lemma HandsOutPerListing(ranges: seq<Range>, owners: seq<nat>, entries: seq<E820Entry>, reserved: seq<Range>, p: int)
    requires Cut(ranges, owners, entries, reserved)
    ensures multiset(Pages(ranges))[p] <= |Listing(p, entries, reserved)|
    ensures Complete(ranges, owners, entries, |entries|, reserved) ==>
              multiset(Pages(ranges))[p] == |Listing(p, entries, reserved)|
  {
    PagesCountOwners(ranges, owners, p);
    var found, listed := OwnersOf(ranges, owners, p), Listing(p, entries, reserved);
    forall i: nat
      ensures i in found ==> i in listed
      ensures Complete(ranges, owners, entries, |entries|, reserved) && i in listed ==> i in found
    {
      OwnersExactly(ranges, owners, p, i);
      if i in found {
        var k :| 0 <= k < |ranges| && owners[k] == i && Covers(ranges[k], p);
        RangeIsFree(ranges, owners, entries, reserved, k, p);
      }
      if Complete(ranges, owners, entries, |entries|, reserved) && i in listed {
        FreeIsCovered(ranges, owners, entries, reserved, i, p);
      }
    }
    SubsetSize(found, listed);
    assert Complete(ranges, owners, entries, |entries|, reserved) ==> found == listed;
  }

  /** Two places in the hand-out order that hold the same page come from two entries that list it. */
  lemma RepeatedPageIsListedTwice(ranges: seq<Range>, owners: seq<nat>, entries: seq<E820Entry>,
                                  reserved: seq<Range>, i: nat, j: nat)
    requires Cut(ranges, owners, entries, reserved) && i < j < |Pages(ranges)| && Pages(ranges)[i] == Pages(ranges)[j]
    ensures exists a: nat, b: nat :: a < b < |entries| && FreeIn(Pages(ranges)[i], entries[a], reserved)
                                     && FreeIn(Pages(ranges)[i], entries[b], reserved)
  {
    var pages, p := Pages(ranges), Pages(ranges)[i];
    HandsOutPerListing(ranges, owners, entries, reserved, p);
    assert pages == pages[..j] + [p] + pages[j + 1..];
    assert p in pages[..j];
    var listed := Listing(p, entries, reserved);
    assert multiset(pages)[p] >= 2;
    var a, b := TwoMembers(listed);
    assert FreeIn(p, entries[a], reserved) && FreeIn(p, entries[b], reserved);
  }

  lemma TwoMembers(s: set<nat>) returns (a: nat, b: nat)
    requires |s| >= 2
    ensures a in s && b in s && a < b
  {
    var x :| x in s;
    assert |s - {x}| > 0;
    var y :| y in s - {x};
    a, b := if x < y then x else y, if x < y then y else x;
  }

  /** The answers of n successive AllocPage calls, by its contract. */
  function Drain(pending: seq<int>, n: nat): seq<int> {
    if n == 0 then []
    else if pending == [] then [0] + Drain([], n - 1)
    else [pending[0]] + Drain(pending[1..], n - 1)
  }

  /** Draining hands out the pending pages in order and then zero for ever; zero is no page. */
  lemma {:induction false} DrainInOrder(pending: seq<int>, n: nat, k: nat)
    requires k < n
    ensures |Drain(pending, n)| == n
    ensures Drain(pending, n)[k] == if k < |pending| then pending[k] else 0
    decreases n
  {
    var rest := if pending == [] then [] else pending[1..];
    if n > 1 {
      DrainInOrder(rest, n - 1, if k == 0 then 0 else k - 1);
    }
  }

  // --- a map with a repeated entry ---

  const TWICE := E820Entry(0x100000, PAGE, 1)

  /** A boot hand-off whose map lists the same page in both of its entries. */
  const REPEATING := BootInfo(0x8000, ENTRY_SIZE, [TWICE, TWICE], Range(0, 0), Range(0, 0), Range(0, 0))

  lemma OnlyOnePageIsFree(p: int, reserved: seq<Range>)
    requires reserved == ReservedRanges(REPEATING)
    ensures FreeIn(p, TWICE, reserved) <==> p == 0x100000
  {
    assert reserved == [Range(0x8000, 0x8030)];
  }

  lemma OneRangeEach(ranges: seq<Range>, owners: seq<nat>)
    requires Cut(ranges, owners, REPEATING.entries, ReservedRanges(REPEATING))
    ensures |ranges| <= 2
  {
    forall k | 0 <= k < |ranges| ensures ranges[k].start == 0x100000 && ranges[k].end > 0x100000 && owners[k] < 2 {
      assert Covers(ranges[k], ranges[k].start);
      OnlyOnePageIsFree(ranges[k].start, ReservedRanges(REPEATING));
    }
    assert NoDup(owners);
    NoDupInside(owners, {0, 1});
  }

  lemma {:induction false} AllTheSame(s: seq<int>, p: int, n: nat)
    requires multiset(s)[p] == n && forall q | q != p :: multiset(s)[q] == 0
    ensures s == seq(n, _ => p)
  {
    if s != [] {
      var front, last := s[..|s| - 1], s[|s| - 1];
      assert s == front + [last];
      assert last in multiset(s);
      assert multiset(s) == multiset(front) + multiset{last};
      assert forall q | q != p :: multiset(s)[q] == multiset(front)[q] + multiset{last}[q];
      AllTheSame(front, p, n - 1);
    }
  }

  lemma RepeatingPages(ranges: seq<Range>, owners: seq<nat>)
    requires Cut(ranges, owners, REPEATING.entries, ReservedRanges(REPEATING))
    requires Complete(ranges, owners, REPEATING.entries, 2, ReservedRanges(REPEATING))
    ensures Pages(ranges) == [0x100000, 0x100000]
  {
    var reserved, entries := ReservedRanges(REPEATING), REPEATING.entries;
    forall p ensures multiset(Pages(ranges))[p] == if p == 0x100000 then 2 else 0 {
      HandsOutPerListing(ranges, owners, entries, reserved, p);
      OnlyOnePageIsFree(p, reserved);
      assert Listing(p, entries, reserved) == if p == 0x100000 then {0, 1} else {};
    }
    AllTheSame(Pages(ranges), 0x100000, 2);
  }

  /** Booted from that map, the allocator hands the page out twice. */
  method RepeatedEntryIsHandedOutTwice() returns (first: u64, second: u64)
    ensures first == 0x100000 && second == 0x100000
  {
    var a := new PhysAllocator();
    var ok := a.Init(REPEATING);
    OneRangeEach(a.Ranges(), a.owners);
    RepeatingPages(a.Ranges(), a.owners);
    assert a.ranges[0..a.rangeCount] == a.Ranges();
    first := a.AllocPage();
    second := a.AllocPage();
  }
}
