/** Shared memory segments: dumped from where they are mapped for the dump, counted from there, and read back
    (shmem.c). */
module Shmem {
  import opened Options
  import opened PageImages
  import opened PagePipes
  import opened PageXfers
  import opened DumpImages
  import opened MemDump

  // A segment as it is mapped at an address.
  function MappedAt(seg: nat -> Page, addr: nat): nat -> Page {
    (a: nat) => if a < addr then ZeroPage() else seg(a - addr)
  }

  // The addresses of the first n pages that are in memory.
  ghost predicate AreResident(pages: seq<nat>, resident: nat -> bool, addr: nat, n: nat) {
    && Ascending(pages) && Below(pages, addr + n)
    && forall a: nat :: a in pages <==> addr <= a < addr + n && resident(a - addr)
  }

  // The pages in memory can take more runs than half the pages of the segment.
  ghost predicate HalfTooFew(resident: nat -> bool, nrPages: nat, addr: nat, most: nat) {
    exists n: nat, pages: seq<nat> ::
      AreResident(pages, resident, addr, n) && n <= nrPages && most > 0 && (nrPages + 1) / 2 < MostRuns(pages, most)
  }

  lemma ResidentStep(pages: seq<nat>, resident: nat -> bool, addr: nat, n: nat)
    requires AreResident(pages, resident, addr, n)
    ensures AreResident(if resident(n) then pages + [addr + n] else pages, resident, addr, n + 1)
  {
    if resident(n) {
      SnocAscending(pages, addr + n);
    }
  }

  /** Pages among n in a row make at most half as many pieces, rounded up: for the pieces alone half the iovs do. */
  lemma {:induction false} HalfThePieces(pages: seq<nat>, addr: nat, n: nat)
    requires Ascending(pages) && forall a :: a in pages ==> addr <= a < addr + n
    ensures 2 * Pieces(pages) <= n + 1
    ensures pages != [] ==> 2 * Pieces(pages) <= pages[|pages| - 1] - addr + 2
    decreases |pages|
  {
    if |pages| > 0 {
      assert pages[|pages| - 1] in pages;
    }
    if |pages| > 1 {
      var k := |pages| - 1;
      var init := pages[..k];
      forall a | a in init ensures addr <= a < addr + (pages[k] - addr) {
        var i :| 0 <= i < k && init[i] == a;
        assert pages[i] in pages && pages[i] < pages[k];
      }
      HalfThePieces(init, addr, pages[k] - addr);
    }
  }

  // A segment smaller than a pipe is never too much.
  lemma HalfIsEnough(resident: nat -> bool, nrPages: nat, addr: nat, most: nat)
    requires most > 0 && nrPages < Share(most)
    ensures !HalfTooFew(resident, nrPages, addr, most)
  {
    forall n: nat, pages: seq<nat> | AreResident(pages, resident, addr, n) && n <= nrPages
      ensures MostRuns(pages, most) <= (nrPages + 1) / 2
    {
      hide Pieces, Ascending;
      HalfThePieces(pages, addr, n);
      NotMore(pages, addr, n);
      NoPipeMore(pages, most);
    }
  }

  lemma {:induction false} NoPipeMore(pages: seq<nat>, most: nat)
    requires most > 0 && |pages| < Share(most)
    ensures MostRuns(pages, most) == Pieces(pages)
  {
    hide Pieces;
  }

  lemma {:induction false} NotMore(pages: seq<nat>, addr: nat, n: nat)
    requires Ascending(pages) && forall a :: a in pages ==> addr <= a < addr + n
    ensures |pages| <= n
    ensures pages != [] ==> addr + |pages| <= pages[|pages| - 1] + 1
    decreases |pages|
  {
    if |pages| > 0 {
      var k := |pages| - 1;
      assert pages[k] in pages;
      forall a | a in pages[..k] ensures addr <= a < addr + (pages[k] - addr) {
        var i :| 0 <= i < k && pages[i] == a;
        assert pages[i] in pages && pages[i] < pages[k];
      }
      NotMore(pages[..k], addr, pages[k] - addr);
    }
  }

  // The iovs of a page pipe with no holes, after the pages were added.
  lemma {:induction false} AllFromAddr(iovs: seq<Iovec>, addr: nat)
    requires Runs(iovs) && forall a :: a in Expand(iovs) ==> addr <= a
    ensures AllFrom(iovs, addr)
  {
    hide Expand;
    forall i | 0 <= i < |iovs| ensures addr <= iovs[i].base {
      ExpandMembers(iovs, iovs[i].base);
      assert iovs[i].base <= iovs[i].base < iovs[i].End();
    }
  }

  // Images of a segment: exactly the pages that were in memory, each with its content.
  ghost predicate IsShmemDump(pm: seq<Entry>, pages: seq<Page>, seg: nat -> Page, resident: nat -> bool, n: nat) {
    && Sorted(pm) && |pages| == OwnBefore(pm, |pm|)
    && (forall k :: 0 <= k < |pm| ==> !pm[k].inParent && pm[k].nrPages > 0)
    && forall pfn: nat ::
         && (HasPage(pm, pfn) <==> pfn < n && resident(pfn))
         && (HasPage(pm, pfn) ==> OwnContent(pm, pages, pfn) == Some(seg(pfn)))
  }

  lemma {:induction false} WrittenShmem(iovs: seq<Iovec>, seg: nat -> Page, resident: nat -> bool, addr: nat, n: nat,
                                        img: Sink)
    requires Runs(iovs) && AreResident(Expand(iovs), resident, addr, n)
    requires AllFrom(iovs, addr) && img == ApplyAll(Images([], []), Merge(iovs, [], addr, MappedAt(seg, addr)))
    ensures img.Images? && IsShmemDump(img.pagemap, img.pages, seg, resident, n)
  {
    hide Expand, Merge, ApplyAll, Ascending, Sorted, OwnBefore, HasPage, OwnContent, Runs;
    DumpedAtOffset(iovs, addr, MappedAt(seg, addr), 0);
    forall pfn: nat
      ensures HasPage(img.pagemap, pfn) <==> pfn < n && resident(pfn)
      ensures HasPage(img.pagemap, pfn) ==> OwnContent(img.pagemap, img.pages, pfn) == Some(seg(pfn))
    {
      DumpedAtOffset(iovs, addr, MappedAt(seg, addr), pfn);
      assert MappedAt(seg, addr)(pfn + addr) == seg(pfn);
      assert pfn + addr in Expand(iovs) <==> pfn < n && resident(pfn + addr - addr);
    }
  }

  /** Dumps a segment that is mapped at some address. On success the images have exactly the pages that are in memory,
      each counted from the beginning of the segment and with its content. It fails only if a call does, if the images
      cannot be written, or if the pages can take more runs than half the pages of the segment. */
  method DumpShmem(seg: nat -> Page, resident: nat -> bool, nrPages: nat, addr: nat, most: nat, room: Option<nat>,
                   flaky: bool)
    returns (ret: int, pm: seq<Entry>, pages: seq<Page>)
    requires 0 < most < PIPE_PAGES
    ensures ret == 0 ==> IsShmemDump(pm, pages, seg, resident, nrPages)
    ensures ret == 0 || flaky || room.Some? || HalfTooFew(resident, nrPages, addr, most)
  {
    hide BufsOk, Expand, Runs, MostRuns, Filled, AreResident, PipesHold, Contents, Merge, ApplyAll, AllWrites,
         HalfTooFew, IsShmemDump;
    pm, pages := [], [];
    var iovs := new Iovec[(nrPages + 1) / 2](_ => Iovec(0, 0));
    var made, size := MakePipe(flaky);
    if !made {
      return -1, pm, pages;
    }
    var pp := new PagePipe(iovs, size, most, flaky);
    NoneYet(resident, addr);
    var pfn := 0;
    while pfn < nrPages
      invariant 0 <= pfn <= nrPages && fresh(pp) && fresh(iovs) && pp.iovs == iovs && pp.holes == []
      invariant pp.Valid() && pp.most == most && pp.flaky == flaky
      invariant AreResident(pp.Pages(), resident, addr, pfn)
    {
      ResidentStep(pp.Pages(), resident, addr, pfn);
      if resident(pfn) {
        ghost var more := pp.Pages() + [addr + pfn];
        ret := pp.AddPage(addr + pfn);
        if ret != 0 {
          if !flaky {
            TooFew(more, resident, nrPages, addr, pfn + 1, most);
          }
          return -1, pm, pages;
        }
      }
      pfn := pfn + 1;
    }
    var mem := MappedAt(seg, addr);
    var pipes;
    ret, pipes := GrabPages(pp, mem);
    if ret < 0 {
      return -1, pm, pages;
    }
    var xfer := new PageXfer(Images([], []), room);
    ghost var used := pp.Used();
    FromAddr(used, resident, addr, nrPages);
    ret := DumpPages(xfer, pp, pipes, addr, mem);
    if ret == 0 {
      WrittenShmem(used, seg, resident, addr, nrPages, xfer.sink);
      pm, pages := xfer.sink.pagemap, xfer.sink.pages;
    }
  }

  lemma NoneYet(resident: nat -> bool, addr: nat)
    ensures AreResident([], resident, addr, 0)
  {
  }

  lemma TooFew(pages: seq<nat>, resident: nat -> bool, nrPages: nat, addr: nat, n: nat, most: nat)
    requires AreResident(pages, resident, addr, n) && n <= nrPages && most > 0
    requires (nrPages + 1) / 2 < MostRuns(pages, most)
    ensures HalfTooFew(resident, nrPages, addr, most)
  {
  }

  lemma {:induction false} FromAddr(iovs: seq<Iovec>, resident: nat -> bool, addr: nat, n: nat)
    requires Runs(iovs) && AreResident(Expand(iovs), resident, addr, n)
    ensures AllFrom(iovs, addr)
  {
    hide Expand;
    AllFromAddr(iovs, addr);
  }

  // A segment after pages were read into it.
  function WithRun(seg: nat -> Page, base: nat, run: seq<Page>): nat -> Page {
    (a: nat) => if base <= a < base + |run| then run[a - base] else seg(a)
  }

  // The pages of the first k entries were read.
  ghost predicate ReadSoFar(pm: seq<Entry>, pages: seq<Page>, k: nat, seg: nat -> Page, now: nat -> Page) {
    k <= |pm| && forall pfn: nat ::
      now(pfn) == if HasPage(pm[..k], pfn) && OwnContent(pm, pages, pfn).Some? then OwnContent(pm, pages, pfn).value
                  else seg(pfn)
  }

  lemma {:induction false} ReadOneMore(pm: seq<Entry>, pages: seq<Page>, k: nat, seg: nat -> Page, now: nat -> Page,
                                       off: nat)
    requires Sorted(pm) && k < |pm| && (forall j :: 0 <= j < |pm| ==> !pm[j].inParent)
    requires ReadSoFar(pm, pages, k, seg, now) && off == OwnBefore(pm, k) && off + pm[k].nrPages <= |pages|
    ensures ReadSoFar(pm, pages, k + 1, seg, WithRun(now, pm[k].vaddr, pages[off..off + pm[k].nrPages]))
  {
    hide OwnBefore, Sorted;
    var e := pm[k];
    var now' := WithRun(now, e.vaddr, pages[off..off + e.nrPages]);
    forall pfn: nat
      ensures now'(pfn) == if HasPage(pm[..k + 1], pfn) && OwnContent(pm, pages, pfn).Some?
                           then OwnContent(pm, pages, pfn).value else seg(pfn)
    {
      HasOneMore(pm, k, pfn);
      if e.Covers(pfn) {
        EntryAtUnique(pm, k, pfn);
      }
    }
  }

  lemma HasOneMore(pm: seq<Entry>, k: nat, pfn: nat)
    requires k < |pm|
    ensures HasPage(pm[..k + 1], pfn) <==> HasPage(pm[..k], pfn) || pm[k].Covers(pfn)
  {
    if HasPage(pm[..k], pfn) {
      var j :| 0 <= j < k && pm[..k][j].Covers(pfn);
      assert pm[..k + 1][j].Covers(pfn);
    }
    if pm[k].Covers(pfn) {
      assert pm[..k + 1][k].Covers(pfn);
    }
    if HasPage(pm[..k + 1], pfn) && !pm[k].Covers(pfn) {
      var j :| 0 <= j < k + 1 && pm[..k + 1][j].Covers(pfn);
      assert pm[..k][j].Covers(pfn);
    }
  }

  /** Reads the pages of a segment back. An entry that does not fit ends the reading, without an error. */
  method RestoreShmem(pm: seq<Entry>, pages: seq<Page>, size: nat, seg: nat -> Page)
    returns (ret: int, now: nat -> Page)
    ensures Sorted(pm) && |pages| == OwnBefore(pm, |pm|) && (forall k :: 0 <= k < |pm| ==> !pm[k].inParent)
            && (forall k :: 0 <= k < |pm| ==> pm[k].End() <= size)
            ==> ret == 0 && ReadSoFar(pm, pages, |pm|, seg, now)
  {
    hide ReadSoFar;
    ghost var good := Sorted(pm) && |pages| == OwnBefore(pm, |pm|) && (forall k :: 0 <= k < |pm| ==> !pm[k].inParent)
      && forall k :: 0 <= k < |pm| ==> pm[k].End() <= size;
    now := seg;
    NoneRead(pm, pages, seg);
    var k, off: nat := 0, 0;
    while k < |pm|
      invariant 0 <= k <= |pm| && off <= |pages|
      invariant good ==> off == OwnBefore(pm, k) && ReadSoFar(pm, pages, k, seg, now)
    {
      var e := pm[k];
      OwnBeforeMonotone(pm, k + 1, |pm|);
      if e.vaddr + e.nrPages > size {
        return 1, now;
      }
      if off + e.nrPages > |pages| {
        return -1, now;
      }
      if good {
        ReadOneMore(pm, pages, k, seg, now, off);
      }
      now := WithRun(now, e.vaddr, pages[off..off + e.nrPages]);
      off := off + e.nrPages;
      k := k + 1;
    }
    ret := 0;
  }

  lemma NoneRead(pm: seq<Entry>, pages: seq<Page>, seg: nat -> Page)
    ensures ReadSoFar(pm, pages, 0, seg, seg)
  {
  }

  // No entry of a dump goes beyond the segment.
  lemma EntriesFit(pm: seq<Entry>, pages: seq<Page>, seg: nat -> Page, resident: nat -> bool, n: nat, k: nat)
    requires IsShmemDump(pm, pages, seg, resident, n) && k < |pm|
    ensures pm[k].End() <= n
  {
    var last := pm[k].End() - 1;
    assert pm[k].Covers(last);
    assert HasPage(pm, last);
  }

  // All that was dumped is read.
  lemma ReadAsDumped(pm: seq<Entry>, pages: seq<Page>, seg: nat -> Page, resident: nat -> bool, n: nat,
                     was: nat -> Page, now: nat -> Page, pfn: nat)
    requires IsShmemDump(pm, pages, seg, resident, n) && ReadSoFar(pm, pages, |pm|, was, now)
    ensures now(pfn) == if pfn < n && resident(pfn) then seg(pfn) else was(pfn)
  {
    hide HasPage, OwnContent;
    assert pm[..|pm|] == pm;
  }

  /** There and back: every page of the segment reads as it did, if pages that are not in memory were never written. */
  method DumpAndRestoreShmem(seg: nat -> Page, resident: nat -> bool, nrPages: nat, addr: nat, most: nat,
                             room: Option<nat>, flaky: bool)
    returns (ret: int, now: nat -> Page)
    requires 0 < most < PIPE_PAGES && forall pfn: nat :: pfn < nrPages && !resident(pfn) ==> seg(pfn) == ZeroPage()
    ensures ret == 0 ==> forall pfn: nat :: pfn < nrPages ==> now(pfn) == seg(pfn)
    ensures ret == 0 || flaky || room.Some? || HalfTooFew(resident, nrPages, addr, most)
  {
    hide IsShmemDump, ReadSoFar, HalfTooFew, ZeroPage;
    var was: nat -> Page := _ => ZeroPage();
    now := was;
    var pm, pages;
    ret, pm, pages := DumpShmem(seg, resident, nrPages, addr, most, room, flaky);
    if ret != 0 {
      return;
    }
    GoodImages(pm, pages, seg, resident, nrPages);
    ret, now := RestoreShmem(pm, pages, nrPages, was);
    forall pfn: nat | pfn < nrPages ensures now(pfn) == seg(pfn) {
      ReadAsDumped(pm, pages, seg, resident, nrPages, was, now, pfn);
    }
  }

  lemma {:induction false} GoodImages(pm: seq<Entry>, pages: seq<Page>, seg: nat -> Page, resident: nat -> bool, n: nat)
    requires IsShmemDump(pm, pages, seg, resident, n)
    ensures Sorted(pm) && |pages| == OwnBefore(pm, |pm|) && forall k :: 0 <= k < |pm| ==> !pm[k].inParent
    ensures forall k :: 0 <= k < |pm| ==> pm[k].End() <= n
  {
    forall k | 0 <= k < |pm| ensures pm[k].End() <= n {
      EntriesFit(pm, pages, seg, resident, n, k);
    }
  }
}
