/** What ties the page allocator to the page tables: drained from a map whose entries do not
    overlap, the allocator supplies the page tables with frames that are all new. */
module FrameSupply {
  import opened Words
  import PhysAllocators
  import PageTables

  /** One answer of the allocator as the page tables take it: zero means none is left. */
  function Answer(page: int): PageTables.Allocation {
    if page <= 0 then PageTables.Failed(PageTables.NoMemory) else PageTables.Page(page / PhysAllocators.PAGE)
  }

  function Answers(pages: seq<int>): (supply: seq<PageTables.Allocation>)
    ensures |supply| == |pages|
  {
    seq(|pages|, i requires 0 <= i < |pages| => Answer(pages[i]))
  }

  lemma AlignedApart(p: int, q: int)
    requires p % PhysAllocators.PAGE == 0 && q % PhysAllocators.PAGE == 0 && p != q
    ensures p / PhysAllocators.PAGE != q / PhysAllocators.PAGE
  {
  }

  /** The supply the page-table theorems start from is what the allocator hands out, however often
      it is asked. */
  lemma AllocatorSuppliesFreshFrames(ranges: seq<PhysAllocators.Range>, owners: seq<nat>,
                                     entries: seq<PhysAllocators.E820Entry>,
                                     reserved: seq<PhysAllocators.Range>, n: nat)
    requires PhysAllocators.Cut(ranges, owners, entries, reserved) && PhysAllocators.EntriesApart(entries, reserved)
    ensures PageTables.FreshSupply(
              PageTables.Mem(map[], Answers(PhysAllocators.Drain(PhysAllocators.Pages(ranges), n))))
  {
    var pages := PhysAllocators.Pages(ranges);
    PhysAllocators.HandsOutOnceIffEntriesApart(ranges, owners, entries, reserved);
    if n > 0 {
      PhysAllocators.DrainInOrder(pages, n, 0);
    }
    var drained := PhysAllocators.Drain(pages, n);
    forall k | 0 <= k < n
      ensures |drained| == n && drained[k] == if k < |pages| then pages[k] else 0
      ensures drained[k] % PhysAllocators.PAGE == 0
    {
      PhysAllocators.DrainInOrder(pages, n, k);
      if k < |pages| {
        PhysAllocators.PagesExact(ranges, pages[k]);
      }
    }
    forall j, k | 0 <= j < k < n && drained[j] > 0 && drained[k] > 0
      ensures Answer(drained[j]) != Answer(drained[k])
    {
      AlignedApart(drained[j], drained[k]);
    }
  }
}
