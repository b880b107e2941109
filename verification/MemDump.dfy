/** Deciding what to dump of a task's memory, and one dump of it (mem.c). */
module MemDump {
  import opened Options
  import opened PageImages
  import opened Areas
  import opened PagePipes
  import opened PageXfers
  import opened DumpImages

  // The bits of a /proc/pid/pagemap record that matter.
  datatype Pme = Pme(present: bool, swap: bool, file: bool, softDirty: bool)

  // What a dump sees: the areas, the page records and the memory.
  datatype Round = Round(vmas: seq<Vma>, pme: nat -> Pme, mem: nat -> Page)

  predicate ShouldDumpPage(vma: Vma, pme: Pme) {
    if vma.vdso then true
    else if vma.kind.FilePrivate? && pme.file then false
    else pme.present || pme.swap
  }

  /** What the kernel's records mean: a page that is neither in memory nor swapped out was never written, and one that
      is still the file's in a private mapping of a file reads as the file does. Any other page may hold anything. */
  ghost predicate KernelSays(r: Round, files: nat -> Page) {
    forall i, va: nat :: 0 <= i < |r.vmas| && Dumped(r.vmas[i]) && !r.vmas[i].vdso && r.vmas[i].Holds(va) ==>
      var pme := r.pme(va);
      && (!pme.present && !pme.swap ==> r.mem(va) == r.vmas[i].Fresh(files, va))
      && (r.vmas[i].kind.FilePrivate? && pme.file ==> r.mem(va) == files(va))
  }

  /** A page that is not dumped reads as it would if it was never written. */
  lemma SkippedIsFresh(r: Round, files: nat -> Page, i: nat, va: nat)
    requires KernelSays(r, files) && i < |r.vmas| && Dumped(r.vmas[i]) && r.vmas[i].Holds(va)
    requires !ShouldDumpPage(r.vmas[i], r.pme(va))
    ensures r.mem(va) == r.vmas[i].Fresh(files, va)
  {
  }

  // A page that belongs into the snapshot, given the first n areas.
  ghost predicate WantedAmong(r: Round, n: nat, va: nat) {
    exists i :: 0 <= i < n && i < |r.vmas| && Dumped(r.vmas[i]) && r.vmas[i].start <= va < r.vmas[i].end
      && ShouldDumpPage(r.vmas[i], r.pme(va))
  }

  ghost predicate Wanted(r: Round, va: nat) {
    WantedAmong(r, |r.vmas|, va)
  }

  /** No page belongs into the snapshot that was never written, or is still the file's; the vdso alone is always
      there. */
  lemma WantedIsTouched(r: Round, va: nat)
    requires Wanted(r, va)
    ensures exists i :: 0 <= i < |r.vmas| && Dumped(r.vmas[i]) && r.vmas[i].Holds(va) &&
                        (r.vmas[i].vdso || ((r.pme(va).present || r.pme(va).swap)
                                            && !(r.vmas[i].kind.FilePrivate? && r.pme(va).file)))
  {
    var i :| 0 <= i < |r.vmas| && Dumped(r.vmas[i]) && r.vmas[i].start <= va < r.vmas[i].end
      && ShouldDumpPage(r.vmas[i], r.pme(va));
    assert r.vmas[i].Holds(va);
  }

  // A page whose content is taken to be the parent's.
  ghost predicate LeftToParent(r: Round, parent: Option<seq<Entry>>, va: nat) {
    parent.Some? && !r.pme(va).softDirty && HasPage(parent.value, va)
  }

  // The parent's pagemap, searched by a rover that only moves forward.
  class MemSnap {
    const pagemap: seq<Entry>
    var rover: nat

    constructor (pagemap: seq<Entry>)
      ensures this.pagemap == pagemap && rover == 0
    {
      this.pagemap, rover := pagemap, 0;
    }

    // Everything before the rover lies before the address.
    ghost predicate Passed(vaddr: nat)
      reads this
    {
      rover <= |pagemap| && forall i :: 0 <= i < rover ==> pagemap[i].End() <= vaddr
    }

    /** For addresses asked in ascending order, the linear search answers for every one of them:
        clean and in the parent's pagemap. */
    method PageInParent(vaddr: nat, pme: Pme) returns (r: bool)
      requires Sorted(pagemap) && Passed(vaddr)
      modifies this
      ensures Passed(vaddr)
      ensures r <==> !pme.softDirty && HasPage(pagemap, vaddr)
    {
      if pme.softDirty {
        return false;
      }
      while rover < |pagemap|
        invariant Passed(vaddr)
      {
        var e := pagemap[rover];
        if e.vaddr > vaddr {
          break;
        }
        if e.End() > vaddr {
          return true;
        }
        rover := rover + 1;
      }
      return false;
    }
  }

  ghost predicate Below(s: seq<nat>, bound: nat) {
    forall i :: 0 <= i < |s| ==> s[i] < bound
  }

  /** Where a scan stands: the page pipe has, in ascending order, exactly the wanted pages below an address,
      those left to the parent as holes. */
  ghost predicate Scanned(r: Round, n: nat, parent: Option<seq<Entry>>, bound: nat, pages: seq<nat>, holes: seq<nat>) {
    && Ascending(pages) && Ascending(holes) && Below(pages, bound) && Below(holes, bound)
    && forall va: nat :: va < bound ==>
         && (va in pages <==> WantedAmong(r, n, va) && !LeftToParent(r, parent, va))
         && (va in holes <==> WantedAmong(r, n, va) && LeftToParent(r, parent, va))
  }

  lemma SnocAscending(s: seq<nat>, x: nat)
    requires Ascending(s) && Below(s, x)
    ensures Ascending(s + [x]) && Below(s + [x], x + 1)
  {
  }

  // One more address was looked at.
  lemma ScanStep(r: Round, n: nat, parent: Option<seq<Entry>>, va: nat, pages: seq<nat>, holes: seq<nat>)
    requires Scanned(r, n, parent, va, pages, holes)
    ensures !WantedAmong(r, n, va) ==> Scanned(r, n, parent, va + 1, pages, holes)
    ensures WantedAmong(r, n, va) && LeftToParent(r, parent, va) ==> Scanned(r, n, parent, va + 1, pages, holes + [va])
    ensures WantedAmong(r, n, va) && !LeftToParent(r, parent, va) ==> Scanned(r, n, parent, va + 1, pages + [va], holes)
  {
    hide WantedAmong, LeftToParent;
    if WantedAmong(r, n, va) {
      if LeftToParent(r, parent, va) {
        SnocAscending(holes, va);
      } else {
        SnocAscending(pages, va);
      }
    }
  }

  // Going on to the next area: nothing between the areas is wanted, nor, if it is not dumped, in the area.
  lemma ScanOn(r: Round, n: nat, parent: Option<seq<Entry>>, from: nat, to: nat, pages: seq<nat>, holes: seq<nat>)
    requires VmasSorted(r.vmas) && n < |r.vmas| && from <= to
    requires to <= if Dumped(r.vmas[n]) then r.vmas[n].start else r.vmas[n].end
    requires Scanned(r, n, parent, from, pages, holes)
    requires n > 0 ==> r.vmas[n - 1].end <= from
    ensures Scanned(r, n + 1, parent, to, pages, holes)
  {
    hide Ascending, LeftToParent;
    forall va: nat | va < to
      ensures WantedAmong(r, n + 1, va) <==> WantedAmong(r, n, va)
      ensures from <= va ==> !WantedAmong(r, n + 1, va)
    {
      if WantedAmong(r, n, va) {
        var i :| 0 <= i < n && i < |r.vmas| && Dumped(r.vmas[i]) && r.vmas[i].start <= va < r.vmas[i].end
          && ShouldDumpPage(r.vmas[i], r.pme(va));
        assert i < n - 1 ==> r.vmas[i].end <= r.vmas[n - 1].start;
        assert 0 <= i < n + 1;
      }
    }
  }

  lemma WantedHere(r: Round, n: nat, va: nat)
    requires VmasSorted(r.vmas) && n < |r.vmas| && Dumped(r.vmas[n]) && r.vmas[n].start <= va < r.vmas[n].end
    ensures WantedAmong(r, n + 1, va) <==> ShouldDumpPage(r.vmas[n], r.pme(va))
  {
    if WantedAmong(r, n + 1, va) {
      var i :| 0 <= i < n + 1 && i < |r.vmas| && Dumped(r.vmas[i]) && r.vmas[i].start <= va < r.vmas[i].end
        && ShouldDumpPage(r.vmas[i], r.pme(va));
      assert !(i < n);
    }
  }

  /** Sorts the pages of one area into the page pipe. */
  method GenerateIovs(r: Round, n: nat, pp: PagePipe, snap: MemSnap?) returns (ret: int)
    requires VmasSorted(r.vmas) && n < |r.vmas| && Dumped(r.vmas[n])
    requires pp.Valid()
    requires snap != null ==> Sorted(snap.pagemap) && snap.Passed(r.vmas[n].start)
    requires Scanned(r, n + 1, if snap == null then None else Some(snap.pagemap), r.vmas[n].start,
                     pp.Pages(), pp.Holes())
    modifies pp, pp.iovs, snap
    ensures pp.Valid() && (ret == 0 || ret == -1)
    ensures ret == 0 || pp.flaky
            || TooManyRuns(r, if snap == null then None else Some(snap.pagemap), pp.iovs.Length, pp.most)
    ensures ret == 0 ==>
      && Scanned(r, n + 1, if snap == null then None else Some(snap.pagemap), r.vmas[n].end, pp.Pages(), pp.Holes())
      && (snap != null ==> snap.Passed(r.vmas[n].end))
  {
    hide Scanned, WantedAmong, VmasSorted, Sorted, BufsOk, Runs, Expand, HasPage, MostRuns, Filled;
    var vma := r.vmas[n];
    ghost var parent := if snap == null then None else Some(snap.pagemap);
    AreaLength(r.vmas, n);
    var nrToScan := vma.end - vma.start;
    var pfn := 0;
    while pfn < nrToScan
      invariant 0 <= pfn <= nrToScan
      invariant pp.Valid() && (snap != null ==> snap.Passed(vma.start + pfn))
      invariant Scanned(r, n + 1, parent, vma.start + pfn, pp.Pages(), pp.Holes())
    {
      var vaddr := vma.start + pfn;
      pfn := pfn + 1;
      ScanStep(r, n + 1, parent, vaddr, pp.Pages(), pp.Holes());
      WantedHere(r, n, vaddr);
      if !ShouldDumpPage(vma, r.pme(vaddr)) {
        continue;
      }
      var inParent := false;
      if snap != null {
        inParent := snap.PageInParent(vaddr, r.pme(vaddr));
      }
      if inParent {
        ret := pp.AddHole(vaddr);
      } else {
        ret := pp.AddPage(vaddr);
      }
      if ret != 0 {
        if !pp.flaky {
          RunsOut(r, n, parent, vaddr, pp.Pages(), pp.Holes(), pp.iovs.Length, pp.most);
        }
        return -1;
      }
    }
    return 0;
  }

  // The pages below an address that are to be stored.
  ghost predicate ToStore(r: Round, parent: Option<seq<Entry>>, bound: nat, pages: seq<nat>) {
    && Ascending(pages) && Below(pages, bound)
    && forall va: nat :: va < bound ==> (va in pages <==> Wanted(r, va) && !LeftToParent(r, parent, va))
  }

  // The pages to be stored can take more runs than there are iovs.
  ghost predicate TooManyRuns(r: Round, parent: Option<seq<Entry>>, nrIovs: nat, most: nat) {
    exists bound: nat, pages: seq<nat> ::
      ToStore(r, parent, bound, pages) && most > 0 && nrIovs < MostRuns(pages, most)
  }

  // The pages to be stored are in no more pieces than there are iovs.
  ghost predicate FitsIovs(r: Round, parent: Option<seq<Entry>>, nrIovs: nat) {
    exists bound: nat, pages: seq<nat> ::
      ToStore(r, parent, bound, pages) && Pieces(pages) <= nrIovs && forall va: nat :: Wanted(r, va) ==> va < bound
  }

  lemma {:induction false} ScannedFits(r: Round, parent: Option<seq<Entry>>, bound: nat, iovs: seq<Iovec>,
                                       holes: seq<nat>, nrIovs: nat)
    requires Scanned(r, |r.vmas|, parent, bound, Expand(iovs), holes) && Runs(iovs) && |iovs| <= nrIovs
    requires forall va: nat :: Wanted(r, va) ==> va < bound
    ensures FitsIovs(r, parent, nrIovs)
  {
    hide Pieces, Expand, Runs, WantedAmong, LeftToParent, Ascending;
    PiecesAtMost(iovs);
    assert ToStore(r, parent, bound, Expand(iovs));
  }

  /** Half as many iovs as there are private pages may be too few: two areas of a page each take two runs. */
  lemma HalfIsTooFew(r: Round)
    requires r.vmas == [Vma(16, 17, AnonPrivate, false, false), Vma(18, 19, AnonPrivate, false, false)]
    requires r.pme(16).present && r.pme(18).present
    ensures !FitsIovs(r, None, 1)
  {
    forall bound: nat, pages: seq<nat>
      | ToStore(r, None, bound, pages) && forall va: nat :: Wanted(r, va) ==> va < bound
      ensures Pieces(pages) > 1
    {
      TwoPieces(r, bound, pages);
    }
  }

  lemma {:induction false} TwoPieces(r: Round, bound: nat, pages: seq<nat>)
    requires r.vmas == [Vma(16, 17, AnonPrivate, false, false), Vma(18, 19, AnonPrivate, false, false)]
    requires r.pme(16).present && r.pme(18).present
    requires ToStore(r, None, bound, pages) && forall va: nat :: Wanted(r, va) ==> va < bound
    ensures Pieces(pages) > 1
  {
    assert r.vmas[0].start <= 16 < r.vmas[0].end && r.vmas[1].start <= 18 < r.vmas[1].end;
    assert Wanted(r, 16) && Wanted(r, 18) && forall va: nat :: Wanted(r, va) ==> va == 16 || va == 18;
    assert 16 in pages && 18 in pages;
    assert forall i :: 0 <= i < |pages| ==> pages[i] in pages && (pages[i] == 16 || pages[i] == 18);
    var i :| 0 <= i < |pages| && pages[i] == 16;
    var j :| 0 <= j < |pages| && pages[j] == 18;
    assert i < j;
    assert forall k :: 0 <= k < |pages| && k != i && k != j ==> pages[k] != 16 && pages[k] != 18;
    assert |pages| == 2 && pages[1] == 18 && pages[0] == 16;
  }

  // Areas further on want no pages down here.
  lemma WantedSoFar(r: Round, n: nat, va: nat)
    requires VmasSorted(r.vmas) && n < |r.vmas| && va < r.vmas[n].end
    ensures WantedAmong(r, n + 1, va) <==> Wanted(r, va)
  {
    if Wanted(r, va) {
      var i :| 0 <= i < |r.vmas| && Dumped(r.vmas[i]) && r.vmas[i].start <= va < r.vmas[i].end
        && ShouldDumpPage(r.vmas[i], r.pme(va));
      assert i < n + 1;
    }
  }

  // A page to be stored that there is no iov for.
  lemma RunsOut(r: Round, n: nat, parent: Option<seq<Entry>>, va: nat, pages: seq<nat>, holes: seq<nat>,
                nrIovs: nat, most: nat)
    requires VmasSorted(r.vmas) && n < |r.vmas| && va < r.vmas[n].end
    requires Scanned(r, n + 1, parent, va, pages, holes) && WantedAmong(r, n + 1, va) && !LeftToParent(r, parent, va)
    requires most > 0 && nrIovs < MostRuns(pages + [va], most)
    ensures TooManyRuns(r, parent, nrIovs, most)
  {
    hide VmasSorted, WantedAmong, MostRuns, LeftToParent;
    ScanStep(r, n + 1, parent, va, pages, holes);
    forall a: nat | a < va + 1 ensures WantedAmong(r, n + 1, a) <==> Wanted(r, a) {
      WantedSoFar(r, n, a);
    }
    assert ToStore(r, parent, va + 1, pages + [va]);
  }

  lemma AreaLength(vmas: seq<Vma>, n: nat)
    requires VmasSorted(vmas) && n < |vmas|
    ensures vmas[n].start <= vmas[n].end
    ensures n > 0 ==> vmas[n - 1].end <= vmas[n].start
  {
  }

  // vmsplice() moves pages of a task into a pipe, in order, and says how many it moved.
  method Vmsplice(mem: nat -> Page, iovs: seq<Iovec>, flaky: bool) returns (content: seq<Page>)
    ensures content <= Contents(mem, Expand(iovs)) && (content == Contents(mem, Expand(iovs)) || flaky)
  {
    var all := Contents(mem, Expand(iovs));
    var moved: int := *;
    content := if flaky && 0 <= moved < |all| then all[..moved] else all;
  }

  // Fills the pipes of a page pipe with the pages of their iovs.
  method GrabPages(pp: PagePipe, mem: nat -> Page) returns (ret: int, pipes: seq<seq<Page>>)
    requires pp.Valid()
    ensures ret == 0 || (ret == -1 && pp.flaky)
    ensures ret == 0 ==> PipesHold(pp.bufs, pp.Used(), pipes, mem)
  {
    hide BufsOk, Expand, Contents, Total, Runs;
    pipes := [];
    var off, j := 0, 0;
    BufsContiguous(pp.bufs, pp.Used(), 0);
    while j < |pp.bufs|
      invariant 0 <= j <= |pp.bufs| && |pipes| == j && off == StartOf(pp.bufs, j, pp.freeIov)
      invariant PipesHold(pp.bufs[..j], pp.Used(), pipes, mem)
    {
      var b := pp.bufs[j];
      BufsContiguous(pp.bufs, pp.Used(), j);
      var iovs := pp.iovs[off..off + b.nrSegs];
      assert iovs == pp.Used()[b.start..b.start + b.nrSegs];
      var content := Vmsplice(mem, iovs, pp.flaky);
      ExpandSize(iovs);
      if |content| != b.pagesIn {
        return -1, pipes;
      }
      pipes := pipes + [content];
      off := off + b.nrSegs;
      j := j + 1;
    }
    assert j == |pp.bufs| && pp.bufs[..|pp.bufs|] == pp.bufs;
    return 0, pipes;
  }

  // The parent's pagemap as it is read.
  function ParentMap(parent: Option<Snapshot>): Option<seq<Entry>> {
    if parent.Some? then Some(AsRead(parent.value.pagemap)) else None
  }

  /** A snapshot of a memory on top of a parent: exactly the wanted pages are in its pagemap, those that are
      left to the parent marked so, and the others stored with their content. */
  ghost predicate IsDump(r: Round, parent: Option<Snapshot>, s: Snapshot) {
    && s.parent == parent
    && Sorted(s.pagemap)
    && |s.pages| == OwnBefore(s.pagemap, |s.pagemap|)
    && (forall k :: 0 <= k < |s.pagemap| ==> s.pagemap[k].nrPages > 0)
    && (forall k :: 0 <= k < |s.pagemap| && !s.pagemap[k].inParent ==> s.pagemap[k].nrPages < TWO_20)
    && HoleGaps(s.pagemap)
    && forall va: nat ::
         && (HasPage(s.pagemap, va) <==> Wanted(r, va))
         && (HasOwnPage(s.pagemap, va) <==> Wanted(r, va) && !LeftToParent(r, ParentMap(parent), va))
         && (HasOwnPage(s.pagemap, va) ==> OwnContent(s.pagemap, s.pages, va) == Some(r.mem(va)))
  }

  // A page pipe with exactly the wanted pages is written out as a snapshot.
  lemma {:induction false} ScannedIsDump(r: Round, parent: Option<Snapshot>, bound: nat, bufs: seq<Buf>,
                                         iovs: seq<Iovec>, holes: seq<Iovec>, s: Snapshot)
    requires BufsOk(bufs, iovs) && Runs(iovs) && Runs(holes) && Gaps(holes)
    requires Scanned(r, |r.vmas|, ParentMap(parent), bound, Expand(iovs), Expand(holes))
    requires forall va: nat :: Wanted(r, va) ==> va < bound
    requires s == Snapshot(Merged(iovs, holes), Contents(r.mem, Expand(iovs)), parent)
    ensures IsDump(r, parent, s)
  {
    hide Expand, Merged, Sorted, Contents, Ascending, Runs, OwnBefore, WantedAmong, HasPage, HasOwnPage, OwnContent,
         BufsOk, Gaps, HoleGaps;
    forall va | va in Expand(iovs)
      ensures va !in Expand(holes)
    {
    }
    DumpedImage(iovs, holes, r.mem);
    MergedRuns(iovs, holes);
    MergedShort(bufs, iovs, holes);
    MergedGaps(iovs, holes);
    forall va: nat
      ensures HasPage(s.pagemap, va) <==> Wanted(r, va)
      ensures HasOwnPage(s.pagemap, va) <==> Wanted(r, va) && !LeftToParent(r, ParentMap(parent), va)
      ensures HasOwnPage(s.pagemap, va) ==> OwnContent(s.pagemap, s.pages, va) == Some(r.mem(va))
    {
      DumpedPage(iovs, holes, r.mem, va);
    }
  }

  // The first area starts the scan, the last one ends it.
  lemma ScanEnds(r: Round, parent: Option<seq<Entry>>)
    requires VmasSorted(r.vmas)
    ensures Scanned(r, 0, parent, 0, [], [])
    ensures forall va: nat :: Wanted(r, va) ==> |r.vmas| > 0 && va < r.vmas[|r.vmas| - 1].end
  {
    forall va: nat | Wanted(r, va)
      ensures |r.vmas| > 0 && va < r.vmas[|r.vmas| - 1].end
    {
      var i :| 0 <= i < |r.vmas| && r.vmas[i].start <= va < r.vmas[i].end;
      assert i < |r.vmas| - 1 ==> r.vmas[i].end <= r.vmas[|r.vmas| - 1].start;
    }
  }

  // What is written is a snapshot of the memory, or stops short of one and is none.
  ghost predicate DumpedOrCut(r: Round, full: Snapshot, s: Snapshot, whole: bool) {
    && IsDump(r, full.parent, full) && s.parent == full.parent
    && (whole ==> s == full)
    && (!whole ==> CutShort(Images(s.pagemap, s.pages), Images(full.pagemap, full.pages)) && !IsDump(r, full.parent, s))
  }

  // A snapshot that stops short lacks the pages of an entry, or the entry itself.
  lemma CutIsNoDump(r: Round, full: Snapshot, s: Snapshot)
    requires IsDump(r, full.parent, full)
    requires CutShort(Images(s.pagemap, s.pages), Images(full.pagemap, full.pages))
    ensures !IsDump(r, full.parent, s)
  {
    hide Wanted, LeftToParent, OwnContent, HoleGaps, OwnBefore;
    var n := |s.pagemap|;
    if n < |full.pagemap| {
      var va := full.pagemap[n].vaddr;
      assert full.pagemap[n].Covers(va) && HasPage(full.pagemap, va);
      assert forall k :: 0 <= k < n ==> s.pagemap[k] == full.pagemap[k] && full.pagemap[k].End() <= va;
      assert !HasPage(s.pagemap, va);
    } else {
      assert s.pagemap == full.pagemap && |s.pages| < |full.pages|;
    }
  }

  // Resets the tracking of dirty pages, if it is on.
  method ResetDirtyTrack(trackMem: bool, flaky: bool) returns (ret: int)
    ensures ret == 0 || (ret == -1 && trackMem && flaky)
  {
    var failed: bool := *;
    ret := if trackMem && flaky && failed then -1 else 0;
  }

  // Sorts the pages of all areas into the page pipe, and fills the pipes.
  method ScanTask(r: Round, pp: PagePipe, snap: MemSnap?, ghost parent: Option<seq<Entry>>)
    returns (ret: int, pipes: seq<seq<Page>>, ghost bound: nat)
    requires VmasSorted(r.vmas) && pp.Valid() && pp.Pages() == [] && pp.Holes() == []
    requires snap != null ==> Sorted(snap.pagemap) && snap.rover == 0
    requires parent == if snap == null then None else Some(snap.pagemap)
    modifies pp, pp.iovs, snap
    ensures pp.Valid() && (ret == 0 || ret == -1)
    ensures ret == -1 ==> pp.flaky || TooManyRuns(r, parent, pp.iovs.Length, pp.most)
    ensures ret == 0 ==> Scanned(r, |r.vmas|, parent, bound, pp.Pages(), pp.Holes())
    ensures ret == 0 ==> PipesHold(pp.bufs, pp.Used(), pipes, r.mem) && forall va: nat :: Wanted(r, va) ==> va < bound
  {
    hide Scanned, WantedAmong, VmasSorted, Sorted, BufsOk, Runs, Expand, HasPage, PipesHold, Contents, TooManyRuns;
    pipes := [];
    ScanEnds(r, parent);
    bound := 0;
    var n := 0;
    while n < |r.vmas|
      invariant 0 <= n <= |r.vmas|
      invariant pp.Valid() && (snap != null ==> snap.Passed(bound))
      invariant bound == if n == 0 then 0 else r.vmas[n - 1].end
      invariant Scanned(r, n, parent, bound, pp.Pages(), pp.Holes())
    {
      AreaLength(r.vmas, n);
      if Dumped(r.vmas[n]) {
        ScanOn(r, n, parent, bound, r.vmas[n].start, pp.Pages(), pp.Holes());
        ret := GenerateIovs(r, n, pp, snap);
        if ret < 0 {
          return;
        }
      } else {
        ScanOn(r, n, parent, bound, r.vmas[n].end, pp.Pages(), pp.Holes());
      }
      bound := r.vmas[n].end;
      n := n + 1;
    }
    ret, pipes := GrabPages(pp, r.mem);
  }

  /** One dump of a task's memory into local images, on top of the parent snapshot if there is one.
      It fails only if some call fails, or if its pages can take more runs than there are iovs. The result of writing
      the images is lost: the one of resetting the tracking of dirty pages takes its place. So a dump that is reported
      as done is a snapshot of the memory exactly if there was room for all its writes; otherwise it stops short. */
  method DumpTask(r: Round, parent: Option<Snapshot>, nrIovs: nat, most: nat, room: Option<nat>, trackMem: bool,
                  flaky: bool)
    returns (ret: int, s: Snapshot, ghost full: Snapshot)
    requires VmasSorted(r.vmas) && (parent.Some? ==> Sorted(parent.value.pagemap)) && 0 < most < PIPE_PAGES
    ensures ret == 0 || flaky || TooManyRuns(r, ParentMap(parent), nrIovs, most)
    ensures ret == 0 ==> FitsIovs(r, ParentMap(parent), nrIovs)
    ensures ret == 0 ==> full.parent == parent && DumpedOrCut(r, full, s, RoomFor(room, EntryWrites(full.pagemap)))
    ensures ret == 0 && room == Some(0) ==> s == Snapshot([], [], parent)
  {
    hide Scanned, WantedAmong, VmasSorted, Sorted, BufsOk, Runs, Expand, HasPage, IsDump, PipesHold, Contents, Merge,
         ApplyAll, TooManyRuns, FitsIovs, Filled, EntryWrites, AllWrites, CutShort, Gaps;
    s := Snapshot([], [], parent);
    full := s;
    var snap: MemSnap? := null;
    if parent.Some? {
      AsReadSorted(parent.value.pagemap);
      snap := new MemSnap(AsRead(parent.value.pagemap));
    }
    var iovs := new Iovec[nrIovs](_ => Iovec(0, 0));
    var made, size := MakePipe(flaky);
    if !made {
      return -1, s, full;
    }
    var pp := new PagePipe(iovs, size, most, flaky);
    var pipes;
    ghost var bound;
    ret, pipes, bound := ScanTask(r, pp, snap, ParentMap(parent));
    if ret < 0 {
      return -1, s, full;
    }
    var failed: bool := *;
    if flaky && failed {
      return -1, s, full;
    }
    var xfer := new PageXfer(Images([], []), room);
    ghost var used := pp.Used();
    full := Snapshot(Merged(used, pp.holes), Contents(r.mem, Expand(used)), parent);
    ScannedIsDump(r, parent, bound, pp.bufs, used, pp.holes, full);
    ScannedFits(r, ParentMap(parent), bound, used, pp.Holes(), nrIovs);
    LocalImages(used, pp.holes, r.mem);
    ret := DumpPages(xfer, pp, pipes, 0, r.mem);
    WrittenImages(r, full, xfer.sink, ret == 0);
    s := Snapshot(xfer.sink.pagemap, xfer.sink.pages, parent);
    ret := ResetDirtyTrack(trackMem, flaky);
  }

  lemma WrittenImages(r: Round, full: Snapshot, sink: Sink, whole: bool)
    requires IsDump(r, full.parent, full)
    requires whole ==> sink == Images(full.pagemap, full.pages)
    requires !whole ==> CutShort(sink, Images(full.pagemap, full.pages))
    ensures sink.Images? && DumpedOrCut(r, full, Snapshot(sink.pagemap, sink.pages, full.parent), whole)
  {
    hide IsDump;
    if !whole {
      CutIsNoDump(r, full, Snapshot(sink.pagemap, sink.pages, full.parent));
    }
  }

  lemma {:induction false} LocalImages(iovs: seq<Iovec>, holes: seq<Iovec>, mem: nat -> Page)
    requires Runs(iovs)
    ensures AllFrom(iovs, 0)
    ensures ApplyAll(Images([], []), Merge(iovs, holes, 0, mem))
            == Images(Merged(iovs, holes), Contents(mem, Expand(iovs)))
    ensures AllWrites(Merge(iovs, holes, 0, mem)) == EntryWrites(Merged(iovs, holes))
  {
    hide Merge, ApplyAll, Merged, Expand, Contents, AllWrites, EntryWrites, Runs;
    LocalDump(iovs, holes, mem, [], []);
    LocalWrites(iovs, holes, mem);
    assert [] + Merged(iovs, holes) == Merged(iovs, holes);
    assert [] + Contents(mem, Expand(iovs)) == Contents(mem, Expand(iovs));
  }
}
