/** The ELF user loader: a plan checked against overflow, then a copy. */
module ElfLoader {
  import opened Words
  import opened LittleEndian

  const PAGE: nat := 0x1000
  const USER_LIMIT: nat := 0x0000_8000_0000_0000
  const HEADER_BYTES: nat := 64
  const PROGRAM_BYTES: nat := 56
  const MAX_SEGMENTS: nat := 16
  const MAX_PROGRAM_HEADERS: nat := 64

  const TYPE_EXEC: nat := 2
  const TYPE_DYN: nat := 3
  const MACHINE_X86_64: nat := 0x3E
  const PT_NULL: nat := 0
  const PT_LOAD: nat := 1

  datatype Refusal = Inval | Busy | Denied | Fault

  datatype Header = Header(
    ident: seq<u8>, kind: u16, machine: u16, version: u32, entry: u64, programOffset: u64, flags: u32,
    headerSize: u16, programSize: u16, programCount: u16)

  datatype Program = Program(
    kind: u32, flags: u32, offset: u64, address: u64, fileSize: u64, memorySize: u64, alignment: u64)

  datatype Segment = Segment(address: nat, fileOffset: u64, fileSize: u64, memorySize: u64, flags: u32)

  datatype Plan = Plan(entry: u64, segments: seq<Segment>)

  datatype Planned = Accepted(plan: Plan) | Refused(why: Refusal)

  function ReadHeader(image: Bytes): Header
    requires |image| >= HEADER_BYTES
  {
    Header(image[..8], Get16(image, 16), Get16(image, 18), Get32(image, 20), Get64(image, 24), Get64(image, 32),
           Get32(image, 48), Get16(image, 52), Get16(image, 54), Get16(image, 56))
  }

  function ReadProgram(image: Bytes, at: nat): Program
    requires at + PROGRAM_BYTES <= |image|
  {
    Program(Get32(image, at), Get32(image, at + 4), Get64(image, at + 8), Get64(image, at + 16),
            Get64(image, at + 32), Get64(image, at + 40), Get64(image, at + 48))
  }

  // --- arithmetic that reports overflow ---

  function Add(a: u64, b: u64): Option<u64> {
    if a > U64 - 1 - b then None else Some(a + b)
  }

  predicate RangeWithin(start: u64, length: u64, limitStart: u64, limitSize: u64) {
    && Add(start, length).Some? && Add(limitStart, limitSize).Some?
    && start >= limitStart && start + length <= limitStart + limitSize
  }

  /** Overflow counts as an overlap. */
  predicate RangesOverlap(left: u64, leftSize: u64, right: u64, rightSize: u64) {
    || Add(left, leftSize).None? || Add(right, rightSize).None?
    || (left < right + rightSize && right < left + leftSize)
  }

  function RoundUpPage(x: u64): Option<u64> {
    var r := Add(x, PAGE - 1);
    if r.None? then None else Some(r.value - r.value % PAGE)
  }

  predicate PowerOfTwo(x: u64) {
    x != 0 && ((x as bv64) & ((x - 1) as bv64)) == 0
  }

  predicate CanWrite(flags: u32) {
    flags / 2 % 2 == 1
  }

  predicate CanExecute(flags: u32) {
    flags % 2 == 1
  }

  // --- what the planner tests ---

  predicate HeaderOk(image: Bytes, bias: u64)
    requires |image| < U64
  {
    && |image| >= HEADER_BYTES
    && var h := ReadHeader(image);
       && h.ident == [0x7F, 0x45, 0x4C, 0x46, 2, 1, 1, 0]
       && (h.kind == TYPE_EXEC || h.kind == TYPE_DYN)
       && (h.kind == TYPE_EXEC ==> bias == 0)
       && (h.kind == TYPE_DYN ==> bias % PAGE == 0 && bias != 0)
       && h.machine == MACHINE_X86_64 && h.version == 1 && h.flags == 0
       && h.headerSize == HEADER_BYTES && h.programSize == PROGRAM_BYTES
       && 0 < h.programCount <= MAX_PROGRAM_HEADERS
       && RangeWithin(h.programOffset, h.programSize * h.programCount, 0, |image|)
       && Add(h.entry, bias).Some? && h.entry + bias < USER_LIMIT
  }

  /** One loadable program header on its own; addresses before and after the bias. */
  predicate ProgramOk(image: Bytes, p: Program, bias: u64)
    requires |image| < U64
  {
    && p.kind == PT_LOAD && p.memorySize != 0 && p.fileSize <= p.memorySize
    && RangeWithin(p.offset, p.fileSize, 0, |image|)
    && p.address < USER_LIMIT && p.address % PAGE == 0 && p.memorySize <= USER_LIMIT - p.address
    && p.flags < 8 && !(CanWrite(p.flags) && CanExecute(p.flags)) && p.flags != 0
    && p.offset % PAGE == 0
    && (p.alignment > 1 ==> PowerOfTwo(p.alignment) && p.address % p.alignment == p.offset % p.alignment)
    && Add(p.address, bias).Some?
    && Add(p.address + bias, p.memorySize).Some?
    && p.address + bias < USER_LIMIT
    && RoundUpPage(p.address + bias + p.memorySize).Some?
    && RoundUpPage(p.address + bias + p.memorySize).value <= USER_LIMIT
  }

  function SegmentOf(p: Program, bias: u64): Segment {
    Segment(p.address + bias, p.offset, p.fileSize, p.memorySize, p.flags)
  }

  /** The first address past the pages of a segment. */
  function MappedEnd(s: Segment): nat {
    (s.address + s.memorySize + PAGE - 1) / PAGE * PAGE
  }

  /** The two segments have a page in common. */
  predicate SharePage(s: Segment, t: Segment) {
    s.address < MappedEnd(t) && t.address < MappedEnd(s)
  }

  predicate EntryOk(plan: Plan) {
    exists i | 0 <= i < |plan.segments| ::
      && CanExecute(plan.segments[i].flags)
      && plan.segments[i].address <= plan.entry < plan.segments[i].address + plan.segments[i].fileSize
  }

  // --- the planner, header by header ---

  /** The first program headers of an image, empty slots included. */
  function Programs(image: Bytes, count: nat): (ps: seq<Program>)
    requires |image| < U64 && |image| >= HEADER_BYTES
    requires ReadHeader(image).programOffset + PROGRAM_BYTES * count <= |image|
    ensures |ps| == count
  {
    if count == 0 then []
    else
      Programs(image, count - 1)
      + [ReadProgram(image, ReadHeader(image).programOffset + PROGRAM_BYTES * (count - 1))]
  }

  datatype Scan = Going(segments: seq<Segment>) | Stopped(why: Refusal)

  predicate Meets(segments: seq<Segment>, s: Segment) {
    exists i | 0 <= i < |segments| :: SharePage(segments[i], s)
  }

  function ScanOne(image: Bytes, p: Program, bias: u64, segments: seq<Segment>): Scan
    requires |image| < U64
  {
    if p.kind == PT_NULL then Going(segments)
    else if |segments| >= MAX_SEGMENTS || !ProgramOk(image, p, bias) then Stopped(Inval)
    else if Meets(segments, SegmentOf(p, bias)) then Stopped(Busy)
    else Going(segments + [SegmentOf(p, bias)])
  }

  function ScanAll(image: Bytes, ps: seq<Program>, bias: u64): Scan
    requires |image| < U64
    decreases |ps|
  {
    if ps == [] then Going([])
    else
      var front := ScanAll(image, ps[..|ps| - 1], bias);
      if front.Stopped? then front else ScanOne(image, ps[|ps| - 1], bias, front.segments)
  }

  function PlanOf(image: Bytes, bias: u64): Planned
    requires |image| < U64
  {
    if !HeaderOk(image, bias) then Refused(Inval)
    else
      var h := ReadHeader(image);
      match ScanAll(image, Programs(image, h.programCount), bias)
      case Stopped(why) => Refused(why)
      case Going(segments) =>
        var plan := Plan(h.entry + bias, segments);
        if segments == [] then Refused(Inval)
        else if !EntryOk(plan) then Refused(Denied)
        else Accepted(plan)
  }

  // --- what an accepted plan is ---

  lemma RoundedIsMappedEnd(x: u64)
    ensures RoundUpPage(x).Some? ==> RoundUpPage(x).value == (x + PAGE - 1) / PAGE * PAGE
    ensures RoundUpPage(x).Some? ==> x <= RoundUpPage(x).value
  {
  }

  /** What the planner promises of each segment, whatever the image. */
  predicate SegmentSafe(image: Bytes, s: Segment) {
    && s.address % PAGE == 0 && s.memorySize > 0 && s.fileSize <= s.memorySize
    && s.address + s.memorySize <= MappedEnd(s) <= USER_LIMIT
    && s.fileOffset + s.fileSize <= |image|
    && !(CanWrite(s.flags) && CanExecute(s.flags))
  }

  lemma ProgramSafe(image: Bytes, p: Program, bias: u64)
    requires |image| < U64 && ProgramOk(image, p, bias) && bias % PAGE == 0
    ensures SegmentSafe(image, SegmentOf(p, bias))
  {
    hide PowerOfTwo;
    RoundedIsMappedEnd(p.address + bias + p.memorySize);
  }

  ghost predicate PageDisjoint(segments: seq<Segment>) {
    forall i, j | 0 <= i < j < |segments| :: !SharePage(segments[i], segments[j])
  }

  /** The program headers that are not empty slots. */
  function NonNull(ps: seq<Program>): seq<Program> {
    if ps == [] then []
    else
      var last := ps[|ps| - 1];
      NonNull(ps[..|ps| - 1]) + if last.kind == PT_NULL then [] else [last]
  }

  ghost predicate ProgramsOk(image: Bytes, ps: seq<Program>, bias: u64)
    requires |image| < U64
  {
    forall i | 0 <= i < |ps| :: ProgramOk(image, ps[i], bias)
  }

  function Segments(ps: seq<Program>, bias: u64): (segments: seq<Segment>)
    ensures |segments| == |ps|
  {
    seq(|ps|, i requires 0 <= i < |ps| => SegmentOf(ps[i], bias))
  }

  lemma SegmentsSnoc(ps: seq<Program>, p: Program, bias: u64)
    ensures Segments(ps + [p], bias) == Segments(ps, bias) + [SegmentOf(p, bias)]
  {
  }

  lemma OkSnoc(image: Bytes, ps: seq<Program>, p: Program, bias: u64)
    requires |image| < U64
    ensures ProgramsOk(image, ps + [p], bias) <==> ProgramsOk(image, ps, bias) && ProgramOk(image, p, bias)
  {
    hide ProgramOk;
    var more := ps + [p];
    assert more[|ps|] == p && forall i | 0 <= i < |ps| :: more[i] == ps[i];
    if ProgramsOk(image, more, bias) {
      forall i | 0 <= i < |ps| ensures ProgramOk(image, ps[i], bias) {
        assert ProgramOk(image, more[i], bias);
      }
    }
  }

  lemma DisjointSnoc(segments: seq<Segment>, s: Segment)
    ensures PageDisjoint(segments + [s]) <==> PageDisjoint(segments) && !Meets(segments, s)
  {
    hide SharePage;
    var more := segments + [s];
    assert more[|segments|] == s && forall i | 0 <= i < |segments| :: more[i] == segments[i];
    if PageDisjoint(more) {
      forall i, j | 0 <= i < j < |segments| ensures !SharePage(segments[i], segments[j]) {
        assert !SharePage(more[i], more[j]);
      }
      forall i | 0 <= i < |segments| ensures !SharePage(segments[i], s) {
        assert !SharePage(more[i], more[|segments|]);
      }
    }
  }

  /** At most sixteen headers, each in order, no two on a common page. */
  ghost predicate Loadable(image: Bytes, ps: seq<Program>, bias: u64)
    requires |image| < U64
  {
    |ps| <= MAX_SEGMENTS && ProgramsOk(image, ps, bias) && PageDisjoint(Segments(ps, bias))
  }

  lemma LoadableSnoc(image: Bytes, front: seq<Program>, p: Program, bias: u64)
    requires |image| < U64 && p.kind != PT_NULL
    ensures Loadable(image, front + [p], bias) <==>
              Loadable(image, front, bias) && ScanOne(image, p, bias, Segments(front, bias)).Going?
    ensures Loadable(image, front + [p], bias) ==>
              ScanOne(image, p, bias, Segments(front, bias)).segments == Segments(front + [p], bias)
  {
    hide ProgramOk, SharePage, PageDisjoint, ProgramsOk, SegmentOf, Segments, Meets;
    OkSnoc(image, front, p, bias);
    SegmentsSnoc(front, p, bias);
    DisjointSnoc(Segments(front, bias), SegmentOf(p, bias));
  }

  /** Scanning succeeds exactly when the headers are loadable together. */
  lemma {:induction false} ScanExact(image: Bytes, ps: seq<Program>, bias: u64)
    requires |image| < U64
    ensures ScanAll(image, ps, bias).Going? <==> Loadable(image, NonNull(ps), bias)
    ensures ScanAll(image, ps, bias).Going? ==> ScanAll(image, ps, bias).segments == Segments(NonNull(ps), bias)
    decreases |ps|
  {
    if ps != [] {
      hide Loadable, Segments, ProgramOk, Meets;
      var front, last := NonNull(ps[..|ps| - 1]), ps[|ps| - 1];
      ScanExact(image, ps[..|ps| - 1], bias);
      if last.kind == PT_NULL {
        assert front + [] == front;
      } else {
        LoadableSnoc(image, front, last, bias);
      }
    }
  }

  /** The loadable headers of an image. */
  function Wanted(image: Bytes, bias: u64): seq<Program>
    requires |image| < U64 && HeaderOk(image, bias)
  {
    NonNull(Programs(image, ReadHeader(image).programCount))
  }

  /** What is accepted, and only that: a valid header; loadable headers each in order, at most
      sixteen and at least one, no two on a common page; the entry in the file-backed bytes of an
      executable one.  The plan lists them in their order. */
  lemma PlanExact(image: Bytes, bias: u64)
    requires |image| < U64
    ensures PlanOf(image, bias).Accepted? <==>
              && HeaderOk(image, bias)
              && var ps := Wanted(image, bias);
                 && ps != [] && Loadable(image, ps, bias)
                 && EntryOk(Plan(ReadHeader(image).entry + bias, Segments(ps, bias)))
    ensures PlanOf(image, bias).Accepted? ==>
              PlanOf(image, bias).plan == Plan(ReadHeader(image).entry + bias, Segments(Wanted(image, bias), bias))
  {
    if HeaderOk(image, bias) {
      ScanExact(image, Programs(image, ReadHeader(image).programCount), bias);
      hide ScanAll, NonNull, Loadable, EntryOk, Programs;
    }
  }

  /** The address is in the pages of the segment. */
  predicate Covers(s: Segment, address: nat) {
    s.address <= address < MappedEnd(s)
  }

  /** Whatever the image: an accepted plan maps page-disjoint segments below the user limit, none
      both writable and executable, and enters file-backed executable bytes. */
  lemma PlanSafe(image: Bytes, bias: u64)
    requires |image| < U64
    ensures PlanOf(image, bias).Accepted? ==>
              var plan := PlanOf(image, bias).plan;
              && 0 < |plan.segments| <= MAX_SEGMENTS
              && (forall i | 0 <= i < |plan.segments| :: SegmentSafe(image, plan.segments[i]))
              && (forall i, j, page: nat | 0 <= i < j < |plan.segments| ::
                    !(Covers(plan.segments[i], page) && Covers(plan.segments[j], page)))
              && EntryOk(plan)
  {
    PlanExact(image, bias);
    if PlanOf(image, bias).Accepted? {
      BiasIsPaged(image, bias);
      var ps := Wanted(image, bias);
      var segments := Segments(ps, bias);
      hide PlanOf, ProgramOk, HeaderOk, Wanted, SegmentSafe, EntryOk, SharePage;
      forall i | 0 <= i < |segments| ensures SegmentSafe(image, segments[i]) {
        assert ProgramOk(image, ps[i], bias);
        ProgramSafe(image, ps[i], bias);
      }
      forall i, j, page: nat | 0 <= i < j < |segments|
        ensures !(Covers(segments[i], page) && Covers(segments[j], page))
      {
        assert !SharePage(segments[i], segments[j]);
        Apart(segments[i], segments[j], page);
      }
    }
  }

  lemma BiasIsPaged(image: Bytes, bias: u64)
    requires |image| < U64 && HeaderOk(image, bias)
    ensures bias % PAGE == 0
  {
  }

  lemma Apart(s: Segment, t: Segment, page: nat)
    requires !SharePage(s, t)
    ensures !(Covers(s, page) && Covers(t, page))
  {
  }

  // --- the planner's loops ---

  lemma HeaderRoom(image: Bytes, bias: u64)
    requires |image| < U64 && HeaderOk(image, bias)
    ensures var h := ReadHeader(image);
            && h.programOffset + PROGRAM_BYTES * h.programCount <= |image|
            && h.entry + bias < U64
  {
  }

  method PlanWithBias(image: Bytes, bias: u64) returns (r: Planned)
    requires |image| < U64
    ensures r == PlanOf(image, bias)
  {
    if !HeaderOk(image, bias) {
      return Refused(Inval);
    }
    var header := ReadHeader(image);
    HeaderRoom(image, bias);
    var scan := ScanPrograms(image, header, bias);
    hide HeaderOk, ReadHeader, ScanAll, Programs, EntryOk;
    if scan.Stopped? {
      return Refused(scan.why);
    }
    if scan.segments == [] {
      return Refused(Inval);
    }
    var plan := Plan(header.entry + bias, scan.segments);
    var executable := EntryIsExecutable(plan);
    r := if executable then Accepted(plan) else Refused(Denied);
  }

  /** Read and try the program headers in turn. */
  method ScanPrograms(image: Bytes, header: Header, bias: u64) returns (scan: Scan)
    requires |image| < U64 && |image| >= HEADER_BYTES && header == ReadHeader(image)
    requires header.programOffset + PROGRAM_BYTES * header.programCount <= |image|
    ensures scan == ScanAll(image, Programs(image, header.programCount), bias)
  {
    hide ReadHeader, ProgramOk, Meets, ScanOne;
    ghost var ps := Programs(image, header.programCount);
    var segments: seq<Segment> := [];
    for index := 0 to header.programCount
      invariant ScanAll(image, ps[..index], bias) == Going(segments)
      invariant forall i | 0 <= i < |segments| :: Plain(segments[i])
    {
      var p := ReadProgram(image, header.programOffset + PROGRAM_BYTES * index);
      ProgramsIndex(image, header.programCount, index);
      assert ps[..index + 1][..index] == ps[..index];
      scan := TryProgram(image, p, bias, segments);
      if scan.Stopped? {
        StoppedStays(image, ps, index + 1, bias);
        return;
      }
      segments := scan.segments;
    }
    assert ps[..header.programCount] == ps;
    scan := Going(segments);
  }

  lemma {:induction false} ProgramsIndex(image: Bytes, count: nat, index: nat)
    requires |image| < U64 && |image| >= HEADER_BYTES && index < count
    requires ReadHeader(image).programOffset + PROGRAM_BYTES * count <= |image|
    ensures Programs(image, count)[index] == ReadProgram(image, ReadHeader(image).programOffset + PROGRAM_BYTES * index)
  {
    hide ReadHeader, ReadProgram;
    if index < count - 1 {
      ProgramsIndex(image, count - 1, index);
    }
  }

  lemma {:induction false} StoppedStays(image: Bytes, ps: seq<Program>, index: nat, bias: u64)
    requires |image| < U64 && index <= |ps| && ScanAll(image, ps[..index], bias).Stopped?
    ensures ScanAll(image, ps, bias) == ScanAll(image, ps[..index], bias)
    decreases |ps|
  {
    hide ScanOne;
    if index < |ps| {
      assert ps[..|ps| - 1][..index] == ps[..index];
      StoppedStays(image, ps[..|ps| - 1], index, bias);
    } else {
      assert ps[..index] == ps;
    }
  }

  /** A planned segment: its sums neither wrap nor pass the user limit. */
  predicate Plain(s: Segment) {
    s.memorySize > 0 && s.address + s.memorySize <= MappedEnd(s) <= USER_LIMIT
  }

  method EntryIsExecutable(plan: Plan) returns (executable: bool)
    ensures executable == EntryOk(plan)
  {
    executable := false;
    for index := 0 to |plan.segments|
      invariant executable == EntryOk(Plan(plan.entry, plan.segments[..index]))
    {
      var s := plan.segments[index];
      var front, more := plan.segments[..index], plan.segments[..index + 1];
      assert more == front + [s];
      EntrySnoc(plan.entry, front, s);
      if CanExecute(s.flags) && plan.entry >= s.address && plan.entry < s.address + s.fileSize {
        executable := true;
      }
    }
    assert plan.segments[..|plan.segments|] == plan.segments;
  }

  lemma EntrySnoc(entry: u64, front: seq<Segment>, s: Segment)
    ensures EntryOk(Plan(entry, front + [s])) <==>
              EntryOk(Plan(entry, front)) || (CanExecute(s.flags) && s.address <= entry < s.address + s.fileSize)
  {
    var more := front + [s];
    assert more[|front|] == s && forall i | 0 <= i < |front| :: more[i] == front[i];
  }

  /** One program header against the segments planned so far. */
  method TryProgram(image: Bytes, p: Program, bias: u64, segments: seq<Segment>) returns (scan: Scan)
    requires |image| < U64 && forall i | 0 <= i < |segments| :: Plain(segments[i])
    ensures scan == ScanOne(image, p, bias, segments)
    ensures scan.Going? ==> forall i | 0 <= i < |scan.segments| :: Plain(scan.segments[i])
  {
    hide PowerOfTwo;
    if p.kind == PT_NULL {
      return Going(segments);
    }
    if |segments| >= MAX_SEGMENTS || !ProgramOk(image, p, bias) {
      return Stopped(Inval);
    }
    var start := p.address + bias;
    var end := start + p.memorySize;
    var mappedEnd := RoundUpPage(end).value;
    RoundedIsMappedEnd(end);
    var s := SegmentOf(p, bias);
    assert Plain(s) && MappedEnd(s) == mappedEnd;
    hide ProgramOk;
    for prior := 0 to |segments|
      invariant forall i | 0 <= i < prior :: !SharePage(segments[i], s)
    {
      var t := segments[prior];
      var priorEnd := t.address + t.memorySize;
      RoundedIsMappedEnd(priorEnd);
      if start < priorEnd && t.address < end {
        assert SharePage(t, s);
        return Stopped(Busy);
      }
      var priorMapped := RoundUpPage(priorEnd);
      if priorMapped.Some? && start < priorMapped.value && t.address < mappedEnd {
        assert SharePage(t, s);
        return Stopped(Busy);
      }
    }
    scan := Going(segments + [s]);
  }

  // --- the loader ---

  /** The byte of the image a loaded address holds: file bytes, then zeros to the end of the page. */
  function LoadedByte(image: Bytes, s: Segment, o: nat): u8
    requires SegmentSafe(image, s)
  {
    if o < s.fileSize then image[s.fileOffset + o] else 0
  }

  predicate Fits(s: Segment, base: u64, size: nat) {
    s.address >= base && MappedEnd(s) <= base + size && base + size < U64
  }

  /** How a load ends, decided before anything is written. */
  function LoadOutcome(image: Bytes, imageAddress: u64, size: Option<u64>, memoryAddress: u64, base: u64): Planned
    requires |image| < U64
  {
    match PlanOf(image, 0)
    case Refused(why) => Refused(why)
    case Accepted(plan) =>
      if size.None? then Refused(Inval)
      else if RangesOverlap(imageAddress, |image|, memoryAddress, size.value) then Refused(Fault)
      else if exists i | 0 <= i < |plan.segments| :: !Fits(plan.segments[i], base, size.value) then Refused(Fault)
      else Accepted(plan)
  }

  /** A segment's file bytes are in its pages, zeros behind them. */
  ghost predicate InPlace(image: Bytes, s: Segment, base: u64, after: seq<u8>) {
    && SegmentSafe(image, s) && Fits(s, base, |after|)
    && forall o | 0 <= o < MappedEnd(s) - s.address :: after[s.address - base + o] == LoadedByte(image, s, o)
  }

  /** Outside the pages of the segments nothing changed. */
  ghost predicate Elsewhere(segments: seq<Segment>, base: u64, before: seq<u8>, after: seq<u8>) {
    && |after| == |before|
    && forall k | 0 <= k < |before| ::
         (forall i | 0 <= i < |segments| :: !Covers(segments[i], base + k)) ==> after[k] == before[k]
  }

  ghost predicate Loads(image: Bytes, segments: seq<Segment>, base: u64, before: seq<u8>, after: seq<u8>) {
    && (forall i | 0 <= i < |segments| :: InPlace(image, segments[i], base, after))
    && Elsewhere(segments, base, before, after)
  }

  /** Exactly the bytes of one segment's pages are replaced. */
  ghost predicate Writes(image: Bytes, s: Segment, base: u64, before: seq<u8>, after: seq<u8>) {
    && |after| == |before| && SegmentSafe(image, s) && Fits(s, base, |before|)
    && forall k | 0 <= k < |before| ::
         after[k] == if Covers(s, base + k) then LoadedByte(image, s, base + k - s.address) else before[k]
  }

  lemma WritesInPlace(image: Bytes, s: Segment, base: u64, before: seq<u8>, after: seq<u8>)
    requires Writes(image, s, base, before, after)
    ensures InPlace(image, s, base, after)
  {
    hide SegmentSafe;
  }

  lemma StaysInPlace(image: Bytes, t: Segment, s: Segment, base: u64, before: seq<u8>, after: seq<u8>)
    requires InPlace(image, t, base, before) && Writes(image, s, base, before, after) && !SharePage(t, s)
    ensures InPlace(image, t, base, after)
  {
    hide SegmentSafe;
  }

  lemma ElsewhereSnoc(image: Bytes, segments: seq<Segment>, s: Segment, base: u64, before: seq<u8>, mid: seq<u8>,
                      after: seq<u8>)
    requires Elsewhere(segments, base, before, mid) && Writes(image, s, base, mid, after)
    ensures Elsewhere(segments + [s], base, before, after)
  {
    var more := segments + [s];
    hide SegmentSafe, LoadedByte, Covers, Fits;
    forall k | 0 <= k < |before| && (forall i | 0 <= i < |more| :: !Covers(more[i], base + k))
      ensures after[k] == before[k]
    {
      assert !Covers(more[|segments|], base + k);
      forall i | 0 <= i < |segments| ensures !Covers(segments[i], base + k) {
        assert !Covers(more[i], base + k);
      }
    }
  }

  lemma LoadsSnoc(image: Bytes, segments: seq<Segment>, s: Segment, base: u64, before: seq<u8>, mid: seq<u8>,
                  after: seq<u8>)
    requires Loads(image, segments, base, before, mid) && Writes(image, s, base, mid, after)
    requires forall i | 0 <= i < |segments| :: !SharePage(segments[i], s)
    ensures Loads(image, segments + [s], base, before, after)
  {
    hide InPlace, Elsewhere, Writes, SharePage;
    var more := segments + [s];
    WritesInPlace(image, s, base, mid, after);
    forall i | 0 <= i < |more| ensures InPlace(image, more[i], base, after) {
      if i < |segments| {
        StaysInPlace(image, segments[i], s, base, mid, after);
      }
    }
    ElsewhereSnoc(image, segments, s, base, before, mid, after);
  }

  /** Copy one segment: its file bytes, then zeros to the end of its last page. */
  method CopySegment(image: Bytes, s: Segment, memory: array<u8>, base: u64)
    requires SegmentSafe(image, s) && Fits(s, base, memory.Length)
    modifies memory
    ensures Writes(image, s, base, old(memory[..]), memory[..])
  {
    var offset, size := s.address - base, MappedEnd(s) - s.address;
    for byte := 0 to size
      invariant forall k | 0 <= k < memory.Length ::
                  memory[k] == if offset <= k < offset + byte then LoadedByte(image, s, k - offset) else old(memory[k])
    {
      memory[offset + byte] := if byte < s.fileSize then image[s.fileOffset + byte] else 0;
    }
  }

  /** Load a fixed-address image: a failure leaves memory untouched, a success leaves each segment's
      bytes in its pages and every other byte as it was. */
  method Load(image: Bytes, imageAddress: u64, memory: array?<u8>, memoryAddress: u64, base: u64) returns (r: Planned)
    requires |image| < U64 && (memory != null ==> memory.Length < U64)
    modifies memory
    ensures r == LoadOutcome(image, imageAddress, if memory == null then None else Some(memory.Length),
                             memoryAddress, base)
    ensures r.Refused? && memory != null ==> memory[..] == old(memory[..])
    ensures r.Accepted? ==> memory != null && Loads(image, r.plan.segments, base, old(memory[..]), memory[..])
  {
    var planned := PlanWithBias(image, 0);
    if planned.Refused? {
      return planned;
    }
    if memory == null {
      return Refused(Inval);
    }
    if RangesOverlap(imageAddress, |image|, memoryAddress, memory.Length) {
      return Refused(Fault);
    }
    PlanSafe(image, 0);
    PlanDisjoint(image, 0);
    var segments := planned.plan.segments;
    hide PlanOf, SegmentSafe, EntryOk, RangesOverlap;
    var fits := AllFit(image, segments, base, memory.Length);
    if !fits {
      return Refused(Fault);
    }
    CopyAll(image, segments, memory, base);
    r := planned;
  }

  lemma PlanDisjoint(image: Bytes, bias: u64)
    requires |image| < U64
    ensures PlanOf(image, bias).Accepted? ==> PageDisjoint(PlanOf(image, bias).plan.segments)
  {
    PlanExact(image, bias);
    hide PlanOf, ProgramsOk, PageDisjoint, HeaderOk, Wanted;
  }

  method AllFit(image: Bytes, segments: seq<Segment>, base: u64, size: u64) returns (fits: bool)
    requires forall i | 0 <= i < |segments| :: SegmentSafe(image, segments[i])
    ensures fits <==> forall i | 0 <= i < |segments| :: Fits(segments[i], base, size)
  {
    for index := 0 to |segments|
      invariant forall i | 0 <= i < index :: Fits(segments[i], base, size)
    {
      var s := segments[index];
      assert SegmentSafe(image, s);
      RoundedIsMappedEnd(s.address + s.memorySize);
      var mappedEnd := RoundUpPage(s.address + s.memorySize);
      if mappedEnd.None? || mappedEnd.value < s.address
         || !RangeWithin(s.address, mappedEnd.value - s.address, base, size) {
        assert !Fits(segments[index], base, size);
        return false;
      }
    }
    fits := true;
  }

  method CopyAll(image: Bytes, segments: seq<Segment>, memory: array<u8>, base: u64)
    requires PageDisjoint(segments)
    requires forall i | 0 <= i < |segments| :: SegmentSafe(image, segments[i]) && Fits(segments[i], base, memory.Length)
    modifies memory
    ensures Loads(image, segments, base, old(memory[..]), memory[..])
  {
    hide SegmentSafe, LoadedByte, Fits, Covers, SharePage;
    for index := 0 to |segments|
      invariant Loads(image, segments[..index], base, old(memory[..]), memory[..])
    {
      ghost var mid := memory[..];
      CopySegment(image, segments[index], memory, base);
      LoadsSnoc(image, segments[..index], segments[index], base, old(memory[..]), mid, memory[..]);
      assert segments[..index + 1] == segments[..index] + [segments[index]];
    }
    assert segments[..|segments|] == segments;
  }
}
