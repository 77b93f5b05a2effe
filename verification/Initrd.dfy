/** The initrd container: the builder that writes it and the kernel function that reads it. */
module Initrd {
  import opened Words
  import opened LittleEndian

  const MAGIC: u64 := 0x4147_4F53_494E_4954
  const VERSION: u16 := 2
  const HEADER_SIZE: nat := 40
  const MAX_SIZE: nat := 0x80000
  const MAX_SERVICES: nat := 8
  const ENTRY_SIZE: nat := 16
  const FLAGS: u32 := 3

  // --- the reader, in 32-bit arithmetic ---

  datatype Header = Header(
    magic: u64, version: u16, headerSize: u16, totalSize: u32, manifestOffset: u32, manifestSize: u32,
    serviceOffset: u32, serviceSize: u32, serviceCount: u32, flags: u32)

  datatype Entry = Entry(imageOffset: u32, imageSize: u32, manifestIndex: u32, reserved: u32)

  datatype Window = Window(offset: u32, size: u32)

  function ReadHeader(b: Bytes): Header
    requires |b| >= HEADER_SIZE
  {
    Header(Get64(b, 0), Get16(b, 8), Get16(b, 10), Get32(b, 12), Get32(b, 16), Get32(b, 20), Get32(b, 24),
           Get32(b, 28), Get32(b, 32), Get32(b, 36))
  }

  function ReadEntry(b: Bytes, at: nat): Entry
    requires at + ENTRY_SIZE <= |b|
  {
    Entry(Get32(b, at), Get32(b, at + 4), Get32(b, at + 8), Get32(b, at + 12))
  }

  /** 32-bit addition: the carry out of the top bit is lost. */
  function Sum32(a: u32, b: u32): u32 {
    if a + b < U32 then a + b else a + b - U32
  }

  /** 32-bit multiplication by the entry size. */
  function TableBytes(count: u32): u32 {
    if count * ENTRY_SIZE < U32 then count * ENTRY_SIZE else count * ENTRY_SIZE % U32
  }

  predicate RangeOk(offset: u32, length: u32, total: u32) {
    offset <= total && length <= total - offset
  }

  predicate HeaderOk(b: Bytes, index: u32)
    requires |b| < U32
  {
    && |b| >= HEADER_SIZE
    && var h := ReadHeader(b);
       && h.magic == MAGIC && h.version == VERSION && h.headerSize == HEADER_SIZE && h.totalSize == |b|
       && h.serviceCount != 0 && h.serviceCount <= MAX_SERVICES && index < h.serviceCount
       && h.flags % 4 == FLAGS
       && RangeOk(h.manifestOffset, h.manifestSize, |b|)
       && RangeOk(h.serviceOffset, h.serviceSize, |b|)
       && h.manifestOffset >= h.headerSize
       && h.serviceOffset >= Sum32(h.manifestOffset, h.manifestSize)
       && h.serviceSize >= TableBytes(h.serviceCount)
  }

  lemma TableInside(b: Bytes, index: u32)
    requires |b| < U32 && HeaderOk(b, index)
    ensures var h := ReadHeader(b);
            h.serviceOffset + ENTRY_SIZE * h.serviceCount <= h.serviceOffset + h.serviceSize <= |b|
  {
  }

  predicate EntryOk(h: Header, e: Entry, total: u32) {
    && e.reserved == 0 && e.manifestIndex < h.serviceCount && e.imageSize != 0
    && RangeOk(e.imageOffset, e.imageSize, total)
    && e.imageOffset >= Sum32(h.serviceOffset, TableBytes(h.serviceCount))
    && Sum32(e.imageOffset, e.imageSize) <= Sum32(h.serviceOffset, h.serviceSize)
  }

  function EntryAt(b: Bytes, k: nat): Entry
    requires |b| >= HEADER_SIZE && ReadHeader(b).serviceOffset + ENTRY_SIZE * (k + 1) <= |b|
  {
    ReadEntry(b, ReadHeader(b).serviceOffset + ENTRY_SIZE * k)
  }

  predicate EntriesOk(b: Bytes, n: nat)
    requires |b| < U32 && |b| >= HEADER_SIZE && ReadHeader(b).serviceOffset + ENTRY_SIZE * n <= |b|
  {
    forall k | 0 <= k < n :: EntryOk(ReadHeader(b), EntryAt(b, k), |b|)
  }

  /** Where the image of a service lies, if the whole container passes every check. */
  function Selected(b: Bytes, index: u32): Option<Window>
    requires |b| < U32
  {
    if !HeaderOk(b, index) then None
    else
      TableInside(b, index);
      if !EntriesOk(b, ReadHeader(b).serviceCount) then None
      else
        var e := EntryAt(b, index);
        Some(Window(e.imageOffset, e.imageSize))
  }

  method SelectService(b: Bytes, index: u32) returns (r: Option<Window>)
    requires |b| < U32
    ensures r == Selected(b, index)
  {
    if !HeaderOk(b, index) {
      return None;
    }
    TableInside(b, index);
    var header := ReadHeader(b);
    hide HeaderOk, EntryOk, ReadHeader, ReadEntry;
    for k := 0 to header.serviceCount
      invariant EntriesOk(b, k)
    {
      var entry := ReadEntry(b, header.serviceOffset + ENTRY_SIZE * k);
      assert entry == EntryAt(b, k);
      if !EntryOk(header, entry, |b|) {
        assert !EntriesOk(b, header.serviceCount);
        return None;
      }
    }
    var selected := ReadEntry(b, header.serviceOffset + ENTRY_SIZE * index);
    r := Some(Window(selected.imageOffset, selected.imageSize));
  }

  /** No sum or product the reader forms wraps: each is formed only after a test that bounds it. */
  lemma NothingWraps(b: Bytes, index: u32)
    requires |b| < U32 && |b| >= HEADER_SIZE
    ensures var h := ReadHeader(b);
            && (RangeOk(h.manifestOffset, h.manifestSize, |b|) ==>
                  Sum32(h.manifestOffset, h.manifestSize) == h.manifestOffset + h.manifestSize)
            && (h.serviceCount <= MAX_SERVICES ==> TableBytes(h.serviceCount) == ENTRY_SIZE * h.serviceCount)
            && (HeaderOk(b, index) ==>
                  && Sum32(h.serviceOffset, TableBytes(h.serviceCount)) == h.serviceOffset + ENTRY_SIZE * h.serviceCount
                  && Sum32(h.serviceOffset, h.serviceSize) == h.serviceOffset + h.serviceSize
                  && forall e: Entry :: RangeOk(e.imageOffset, e.imageSize, |b|) ==>
                       Sum32(e.imageOffset, e.imageSize) == e.imageOffset + e.imageSize)
  {
    hide ReadHeader;
  }

  /** Whatever the bytes: an accepted image is not empty and lies behind the table, inside the
      service area, inside the container. */
  lemma SelectedInside(b: Bytes, index: u32)
    requires |b| < U32 && Selected(b, index).Some?
    ensures var h, w := ReadHeader(b), Selected(b, index).value;
            && w.size > 0
            && HEADER_SIZE + h.manifestSize <= h.serviceOffset
            && h.serviceOffset + ENTRY_SIZE * h.serviceCount <= w.offset
            && w.offset + w.size <= h.serviceOffset + h.serviceSize <= |b|
  {
    TableInside(b, index);
    var h := ReadHeader(b);
    var e := EntryAt(b, index);
    assert EntryOk(h, e, |b|);
    assert HeaderOk(b, index);
    hide Selected, EntriesOk, ReadHeader, ReadEntry;
    EntryInside(h, e, |b|);
  }

  lemma EntryInside(h: Header, e: Entry, total: u32)
    requires EntryOk(h, e, total) && RangeOk(h.serviceOffset, h.serviceSize, total)
    requires h.serviceCount <= MAX_SERVICES && h.serviceSize >= ENTRY_SIZE * h.serviceCount
    ensures e.imageSize > 0 && h.serviceOffset + ENTRY_SIZE * h.serviceCount <= e.imageOffset
    ensures e.imageOffset + e.imageSize <= h.serviceOffset + h.serviceSize
  {
  }

  // --- the builder ---

  /** The bytes that `n` images of one size take. */
  function Span(n: nat, size: nat): nat {
    n * size
  }

  lemma SpanStep(n: nat, size: nat)
    ensures Span(n + 1, size) == Span(n, size) + size
  {
  }

  function PutEntry(e: Entry): (b: Bytes)
    ensures |b| == ENTRY_SIZE
  {
    Put32(e.imageOffset) + Put32(e.imageSize) + Put32(e.manifestIndex) + Put32(e.reserved)
  }

  function PutHeader(h: Header): (b: Bytes)
    ensures |b| == HEADER_SIZE
  {
    Put64(h.magic) + Put16(h.version) + Put16(h.headerSize) + Put32(h.totalSize) + Put32(h.manifestOffset)
    + Put32(h.manifestSize) + Put32(h.serviceOffset) + Put32(h.serviceSize) + Put32(h.serviceCount) + Put32(h.flags)
  }

  /** `n` table entries for copies of an image of `size` bytes laid out from `start`. */
  function Table(start: nat, size: nat, n: nat): (b: Bytes)
    requires n <= MAX_SERVICES && start + Span(n, size) < U32
    ensures |b| == ENTRY_SIZE * n
  {
    if n == 0 then []
    else
      SpanStep(n - 1, size);
      Table(start, size, n - 1) + PutEntry(Entry(start + Span(n - 1, size), size, n - 1, 0))
  }

  function Copies(image: Bytes, n: nat): (b: Bytes)
    ensures |b| == Span(n, |image|)
  {
    if n == 0 then []
    else
      SpanStep(n - 1, |image|);
      Copies(image, n - 1) + image
  }

  function TotalSize(manifest: Bytes, image: Bytes, n: nat): nat {
    HEADER_SIZE + |manifest| + ENTRY_SIZE * n + Span(n, |image|)
  }

  function HeaderFor(manifest: Bytes, image: Bytes, n: nat): Header
    requires TotalSize(manifest, image, n) <= MAX_SIZE
  {
    Header(MAGIC, VERSION, HEADER_SIZE, TotalSize(manifest, image, n), HEADER_SIZE, |manifest|,
           HEADER_SIZE + |manifest|, ENTRY_SIZE * n + Span(n, |image|), n, FLAGS)
  }

  /** What the builder accepts: one to eight services and a container within the size limit. */
  predicate Buildable(manifest: Bytes, image: Bytes, n: nat) {
    0 < n <= MAX_SERVICES && TotalSize(manifest, image, n) <= MAX_SIZE
  }

  /** The container for `n` services that share one image. */
  function Container(manifest: Bytes, image: Bytes, n: nat): Bytes
    requires Buildable(manifest, image, n)
  {
    var imageOffset := HEADER_SIZE + |manifest| + ENTRY_SIZE * n;
    PutHeader(HeaderFor(manifest, image, n)) + manifest + Table(imageOffset, |image|, n) + Copies(image, n)
  }

  function Build(manifest: Bytes, image: Bytes, n: nat): Option<Bytes> {
    if Buildable(manifest, image, n) then Some(Container(manifest, image, n)) else None
  }

  // --- what was written is read ---

  lemma HeaderReadBack(b: Bytes, h: Header)
    requires |b| >= HEADER_SIZE && b[..HEADER_SIZE] == PutHeader(h)
    ensures ReadHeader(b) == h
  {
    hide Put16, Put32, Put64, Get16, Get32, Get64;
    var p := b[..HEADER_SIZE];
    assert b[0..8] == p[0..8] == Put64(h.magic);
    assert b[8..10] == p[8..10] == Put16(h.version);
    assert b[10..12] == p[10..12] == Put16(h.headerSize);
    assert b[12..16] == p[12..16] == Put32(h.totalSize);
    assert b[16..20] == p[16..20] == Put32(h.manifestOffset);
    assert b[20..24] == p[20..24] == Put32(h.manifestSize);
    assert b[24..28] == p[24..28] == Put32(h.serviceOffset);
    assert b[28..32] == p[28..32] == Put32(h.serviceSize);
    assert b[32..36] == p[32..36] == Put32(h.serviceCount);
    assert b[36..40] == p[36..40] == Put32(h.flags);
    Get64Slice(b, 0, h.magic);
    Get16Slice(b, 8, h.version);
    Get16Slice(b, 10, h.headerSize);
    Get32Slice(b, 12, h.totalSize);
    Get32Slice(b, 16, h.manifestOffset);
    Get32Slice(b, 20, h.manifestSize);
    Get32Slice(b, 24, h.serviceOffset);
    Get32Slice(b, 28, h.serviceSize);
    Get32Slice(b, 32, h.serviceCount);
    Get32Slice(b, 36, h.flags);
  }

  lemma EntryReadBack(b: Bytes, at: nat, e: Entry)
    requires at + ENTRY_SIZE <= |b| && b[at..at + ENTRY_SIZE] == PutEntry(e)
    ensures ReadEntry(b, at) == e
  {
    hide Put32, Get32;
    var p := b[at..at + ENTRY_SIZE];
    assert b[at..at + 4] == p[0..4] == Put32(e.imageOffset);
    assert b[at + 4..at + 8] == p[4..8] == Put32(e.imageSize);
    assert b[at + 8..at + 12] == p[8..12] == Put32(e.manifestIndex);
    assert b[at + 12..at + 16] == p[12..16] == Put32(e.reserved);
    Get32Slice(b, at, e.imageOffset);
    Get32Slice(b, at + 4, e.imageSize);
    Get32Slice(b, at + 8, e.manifestIndex);
    Get32Slice(b, at + 12, e.reserved);
  }

  lemma {:induction false} TableSlice(start: nat, size: nat, n: nat, k: nat)
    requires n <= MAX_SERVICES && start + Span(n, size) < U32 && k < n
    ensures Span(k, size) <= Span(n, size)
    ensures Table(start, size, n)[ENTRY_SIZE * k..ENTRY_SIZE * (k + 1)] ==
        PutEntry(Entry(start + Span(k, size), size, k, 0))
  {
    hide PutEntry, Span;
    SpanStep(n - 1, size);
    var t := Table(start, size, n);
    if k < n - 1 {
      TableSlice(start, size, n - 1, k);
      assert t[ENTRY_SIZE * k..ENTRY_SIZE * (k + 1)] == Table(start, size, n - 1)[ENTRY_SIZE * k..ENTRY_SIZE * (k + 1)];
    } else {
      assert t[ENTRY_SIZE * k..] == PutEntry(Entry(start + Span(k, size), size, k, 0));
    }
  }

  lemma {:induction false} CopiesSlice(image: Bytes, n: nat, k: nat)
    requires k < n
    ensures 0 <= Span(k, |image|) <= Span(k + 1, |image|) <= Span(n, |image|)
        && Span(k + 1, |image|) == Span(k, |image|) + |image|
    ensures Copies(image, n)[Span(k, |image|)..Span(k + 1, |image|)] == image
  {
    SpanStep(n - 1, |image|);
    if k < n - 1 {
      CopiesSlice(image, n - 1, k);
      assert Copies(image, n)[Span(k, |image|)..Span(k + 1, |image|)] ==
          Copies(image, n - 1)[Span(k, |image|)..Span(k + 1, |image|)];
    }
  }

  /** The parts of a built container, where its header says they are. */
  lemma BuiltParts(manifest: Bytes, image: Bytes, n: nat)
    requires Buildable(manifest, image, n)
    ensures var b, h := Container(manifest, image, n), HeaderFor(manifest, image, n);
            var table := HEADER_SIZE + |manifest|;
            var images := table + ENTRY_SIZE * n;
            && |b| == TotalSize(manifest, image, n) && Span(n, |image|) <= |b| - images
            && ReadHeader(b) == h
            && b[HEADER_SIZE..table] == manifest
            && b[table..images] == Table(images, |image|, n)
            && b[images..] == Copies(image, n)
  {
    hide PutHeader, Table, Copies, ReadHeader, Span;
    var b, h := Container(manifest, image, n), HeaderFor(manifest, image, n);
    assert b[..HEADER_SIZE] == PutHeader(h);
    HeaderReadBack(b, h);
  }

  lemma SliceInside(b: Bytes, low: nat, high: nat, i: nat, j: nat)
    requires low <= high <= |b| && i <= j <= high - low
    ensures b[low..high][i..j] == b[low + i..low + j]
  {
    var inner, outer := b[low..high][i..j], b[low + i..low + j];
    forall x | 0 <= x < j - i ensures inner[x] == outer[x] {
      assert inner[x] == b[low..high][i + x];
    }
    assert inner == outer;
  }

  lemma BuiltEntry(manifest: Bytes, image: Bytes, n: nat, k: nat)
    requires Buildable(manifest, image, n) && k < n
    ensures var b := Container(manifest, image, n);
            var images := HEADER_SIZE + |manifest| + ENTRY_SIZE * n;
            && Span(k, |image|) + |image| <= Span(n, |image|) <= |b| - images
            && HEADER_SIZE + |manifest| + ENTRY_SIZE * (k + 1) <= |b|
            && ReadEntry(b, HEADER_SIZE + |manifest| + ENTRY_SIZE * k) ==
                Entry(images + Span(k, |image|), |image|, k, 0)
            && b[images + Span(k, |image|)..images + Span(k, |image|) + |image|] == image
  {
    hide Table, Copies, ReadHeader, ReadEntry, Container, Span;
    BuiltParts(manifest, image, n);
    var b := Container(manifest, image, n);
    var table := HEADER_SIZE + |manifest|;
    var images := table + ENTRY_SIZE * n;
    TableSlice(images, |image|, n, k);
    CopiesSlice(image, n, k);
    SliceInside(b, table, images, ENTRY_SIZE * k, ENTRY_SIZE * (k + 1));
    EntryReadBack(b, table + ENTRY_SIZE * k, Entry(images + Span(k, |image|), |image|, k, 0));
    assert b[images..] == b[images..|b|];
    SliceInside(b, images, |b|, Span(k, |image|), Span(k + 1, |image|));
  }

  lemma BuiltHeaderOk(manifest: Bytes, image: Bytes, n: nat, index: u32)
    requires Buildable(manifest, image, n)
    ensures var b := Container(manifest, image, n);
            && |b| <= MAX_SIZE && (HeaderOk(b, index) <==> index < n)
            && ReadHeader(b) == HeaderFor(manifest, image, n)
  {
    BuiltParts(manifest, image, n);
    hide Container, ReadHeader, Table, Copies, Span;
  }

  /** Where a built container has its table and its images. */
  lemma BuiltLayout(manifest: Bytes, image: Bytes, n: nat, b: Bytes, h: Header)
    requires Buildable(manifest, image, n) && Container(manifest, image, n) == b && |b| >= HEADER_SIZE
        && ReadHeader(b) == h
    ensures 0 < n <= MAX_SERVICES && |b| <= MAX_SIZE
    ensures h.serviceOffset == HEADER_SIZE + |manifest| && h.serviceCount == n
    ensures h.serviceSize == ENTRY_SIZE * n + Span(n, |image|)
    ensures |b| == HEADER_SIZE + |manifest| + ENTRY_SIZE * n + Span(n, |image|)
  {
    BuiltParts(manifest, image, n);
    hide Container, ReadHeader, Table, Copies, Span;
  }

  lemma EntryPasses(h: Header, e: Entry, total: u32, room: nat, before: nat)
    requires 0 < h.serviceCount <= MAX_SERVICES && h.serviceSize == ENTRY_SIZE * h.serviceCount + room
    requires total == h.serviceOffset + h.serviceSize && before + e.imageSize <= room
    requires e.imageOffset == h.serviceOffset + ENTRY_SIZE * h.serviceCount + before
    requires e.reserved == 0 && e.manifestIndex < h.serviceCount
    ensures EntryOk(h, e, total) <==> e.imageSize != 0
    ensures e.imageOffset + e.imageSize <= total
  {
  }

  /** An entry of a built container: it passes unless the image is empty, and it points at a copy. */
  lemma BuiltEntryOk(manifest: Bytes, image: Bytes, n: nat, k: nat, b: Bytes, h: Header)
    requires Buildable(manifest, image, n) && Container(manifest, image, n) == b && k < n && |b| < U32
    requires |b| >= HEADER_SIZE && ReadHeader(b) == h
    ensures h.serviceOffset + ENTRY_SIZE * (k + 1) <= |b|
    ensures var e := EntryAt(b, k);
            && (EntryOk(h, e, |b|) <==> image != [])
            && e.imageSize == |image| && e.imageOffset + |image| <= |b|
            && b[e.imageOffset..e.imageOffset + |image|] == image
  {
    hide Container, HeaderFor, TotalSize, ReadHeader, ReadEntry, Table, Copies, Span, EntryOk;
    BuiltLayout(manifest, image, n, b, h);
    BuiltEntry(manifest, image, n, k);
    EntryPasses(h, EntryAt(b, k), |b|, Span(n, |image|), Span(k, |image|));
  }

  /** The reader finds exactly the image the builder wrote, for every service; it finds nothing for
      an index past the last, and nothing at all when the image was empty. */
  lemma ReadsWhatWasBuilt(manifest: Bytes, image: Bytes, n: nat, index: u32)
    requires Buildable(manifest, image, n)
    ensures var b := Container(manifest, image, n);
            && Build(manifest, image, n) == Some(b) && |b| <= MAX_SIZE
            && (Selected(b, index).Some? <==> image != [] && index < n)
            && (image != [] && index < n ==>
                  var w := Selected(b, index).value;
                  w.offset + w.size <= |b| && b[w.offset..w.offset + w.size] == image)
  {
    BuiltHeaderOk(manifest, image, n, index);
    var b, h := Container(manifest, image, n), HeaderFor(manifest, image, n);
    if index < n {
      TableInside(b, index);
      assert h.serviceCount == n;
      hide Container, ReadHeader, EntryAt, HeaderOk, EntryOk, Span;
      forall k | 0 <= k < n
        ensures h.serviceOffset + ENTRY_SIZE * (k + 1) <= |b| && (EntryOk(h, EntryAt(b, k), |b|) <==> image != [])
      {
        BuiltEntryOk(manifest, image, n, k, b, h);
      }
      BuiltEntryOk(manifest, image, n, index, b, h);
      assert EntriesOk(b, n) <==> image != [];
    }
  }

  /** The manifest is where the header says, as it was given. */
  lemma ManifestReadBack(manifest: Bytes, image: Bytes, n: nat)
    requires Buildable(manifest, image, n)
    ensures var b := Container(manifest, image, n);
            && |b| >= HEADER_SIZE
            && var h := ReadHeader(b);
               h.manifestOffset + h.manifestSize <= |b|
                   && b[h.manifestOffset..h.manifestOffset + h.manifestSize] == manifest
  {
    BuiltParts(manifest, image, n);
    hide Container, ReadHeader, Span;
  }
}
