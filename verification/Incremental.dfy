/** Any number of incremental dumps, and the restore from the last of them. */
module Incremental {
  import opened Options
  import opened PageImages
  import opened Areas
  import opened PagePipes
  import opened PageXfers
  import opened DumpImages
  import opened MemDump
  import opened Premap
  import opened TaskMemory

  // A chain of snapshots made by dumping round after round, each on top of the one before.
  ghost predicate IsChain(rounds: seq<Round>, s: Snapshot)
    decreases |rounds|
  {
    && rounds != []
    && IsDump(rounds[|rounds| - 1], s.parent, s)
    && if |rounds| == 1 then s.parent.None? else s.parent.Some? && IsChain(rounds[..|rounds| - 1], s.parent.value)
  }

  // The same said of all rounds at once.
  ghost predicate DumpsOf(rounds: seq<Round>, s: Snapshot) {
    IsChain(rounds, s)
  }

  /** What dirty tracking promises about two rounds: a page that was dumped before and
      is still clean has kept its content. */
  ghost predicate CleanKept(before: Round, r: Round) {
    forall va: nat :: Wanted(before, va) && Wanted(r, va) && !r.pme(va).softDirty ==> r.mem(va) == before.mem(va)
  }

  ghost predicate AllCleanKept(rounds: seq<Round>) {
    forall i :: 0 < i < |rounds| ==> CleanKept(rounds[i - 1], rounds[i])
  }

  // A chain that can be read, and whose every page is what the memory had.
  ghost predicate Faithful(s: Snapshot, mem: nat -> Page) {
    && WellFormed(s)
    && forall va: nat :: HasPage(s.pagemap, va) ==> Lookup(s, va) == Some(mem(va))
  }

  lemma InParentNotOwn(pm: seq<Entry>, k: nat, va: nat)
    requires Sorted(pm) && k < |pm| && pm[k].inParent && pm[k].Covers(va)
    ensures !HasOwnPage(pm, va) && HasPage(pm, va)
  {
  }

  // A page a dump does not store is in the parent's pagemap, as that is read.
  lemma LeftToSomeParent(r: Round, parent: Option<Snapshot>, s: Snapshot, k: nat, va: nat)
    requires IsDump(r, parent, s) && k < |s.pagemap| && s.pagemap[k].inParent && s.pagemap[k].Covers(va)
    ensures Wanted(r, va) && parent.Some? && LeftToParent(r, ParentMap(parent), va)
  {
    InParentNotOwn(s.pagemap, k, va);
  }

  lemma {:induction false} DumpIsWellFormed(r: Round, parent: Option<Snapshot>, s: Snapshot)
    requires IsDump(r, parent, s) && (parent.Some? ==> WellFormed(ChainAsRead(parent.value)))
    ensures WellFormed(ChainAsRead(s))
  {
    hide Wanted, LeftToParent, Narrow, HoleGaps;
    var pm := AsRead(s.pagemap);
    AsReadSorted(s.pagemap);
    AsReadOwn(s.pagemap, |s.pagemap|);
    forall k, va: nat | 0 <= k < |pm| && pm[k].inParent && pm[k].Covers(va)
      ensures parent.Some? && HasPage(AsRead(parent.value.pagemap), va)
    {
      NarrowFits(s.pagemap[k]);
      AsReadCovers(s.pagemap, k, va);
      LeftToSomeParent(r, parent, s, k, va);
      assert HasPage(ParentMap(parent).value, va) by { LeftMeans(r, ParentMap(parent), va); }
    }
    forall k | 0 <= k < |pm| && pm[k].inParent
      ensures parent.Some?
    {
      NarrowFits(s.pagemap[k]);
      LeftToSomeParent(r, parent, s, k, s.pagemap[k].vaddr);
    }
  }

  lemma LeftMeans(r: Round, parent: Option<seq<Entry>>, va: nat)
    requires LeftToParent(r, parent, va)
    ensures parent.Some? && !r.pme(va).softDirty && HasPage(parent.value, va)
  {
  }

  // A page that a dump stores is read back.
  lemma {:induction false} OwnReadBack(r: Round, parent: Option<Snapshot>, s: Snapshot, k: nat, va: nat)
    requires IsDump(r, parent, s) && k < |s.pagemap| && !s.pagemap[k].inParent && AsRead(s.pagemap)[k].Covers(va)
    ensures Lookup(ChainAsRead(s), va) == Some(r.mem(va))
  {
    hide Wanted, LeftToParent, Narrow, HoleGaps, OwnBefore, Sorted;
    NarrowFits(s.pagemap[k]);
    AsReadCovers(s.pagemap, k, va);
    AsReadSorted(s.pagemap);
    AsReadOwn(s.pagemap, k);
    EntryAtUnique(s.pagemap, k, va);
    EntryAtUnique(AsRead(s.pagemap), k, va);
  }

  // One dump on a faithful parent is faithful, if clean pages kept their content.
  lemma {:induction false} DumpIsFaithful(r: Round, before: Option<Round>, parent: Option<Snapshot>, s: Snapshot)
    requires IsDump(r, parent, s) && (parent.Some? <==> before.Some?)
    requires parent.Some? ==>
               && IsDump(before.value, parent.value.parent, parent.value)
               && Faithful(ChainAsRead(parent.value), before.value.mem)
               && CleanKept(before.value, r)
    ensures Faithful(ChainAsRead(s), r.mem)
  {
    hide Wanted, LeftToParent, Narrow, HoleGaps, OwnBefore, Sorted, WellFormed;
    DumpIsWellFormed(r, parent, s);
    AsReadSorted(s.pagemap);
    var pm := AsRead(s.pagemap);
    forall va: nat | HasPage(pm, va)
      ensures Lookup(ChainAsRead(s), va) == Some(r.mem(va))
    {
      var k := EntryAt(pm, va).value;
      if pm[k].inParent {
        NarrowFits(s.pagemap[k]);
        AsReadCovers(s.pagemap, k, va);
        LeftToSomeParent(r, parent, s, k, va);
        LeftMeans(r, ParentMap(parent), va);
        ReadWanted(before.value, parent.value, va);
        assert Lookup(ChainAsRead(s), va) == Lookup(ChainAsRead(parent.value), va);
      } else {
        NarrowFits(s.pagemap[k]);
        OwnReadBack(r, parent, s, k, va);
      }
    }
  }

  // Every page that is read was wanted.
  lemma ReadWanted(r: Round, s: Snapshot, va: nat)
    requires IsDump(r, s.parent, s) && HasPage(AsRead(s.pagemap), va)
    ensures Wanted(r, va)
  {
    var k :| 0 <= k < |s.pagemap| && AsRead(s.pagemap)[k].Covers(va);
    AsReadCovers(s.pagemap, k, va);
  }

  /** However many incremental dumps were made, if clean pages kept their content between them, the last
      snapshot of the chain reads as the memory did at the last dump, wherever it has a page to read. */
  lemma {:induction false} ChainIsFaithful(rounds: seq<Round>, s: Snapshot)
    requires IsChain(rounds, s) && AllCleanKept(rounds)
    ensures Faithful(ChainAsRead(s), rounds[|rounds| - 1].mem)
    decreases |rounds|
  {
    hide IsDump, Faithful, CleanKept;
    var n := |rounds| - 1;
    if n == 0 {
      DumpIsFaithful(rounds[0], None, None, s);
    } else {
      ChainIsFaithful(rounds[..n], s.parent.value);
      assert CleanKept(rounds[n - 1], rounds[n]);
      DumpIsFaithful(rounds[n], Some(rounds[n - 1]), s.parent, s);
    }
  }

  // So many pages in a row are left to the parent.
  ghost predicate CleanRun(r: Round, parent: Option<Snapshot>, from: nat, n: nat) {
    forall va: nat :: from <= va < from + n ==> Wanted(r, va) && LeftToParent(r, ParentMap(parent), va)
  }

  // Four gigabytes in a row are left to the parent.
  ghost predicate LongHole(r: Round, parent: Option<Snapshot>) {
    exists from: nat :: CleanRun(r, parent, from, TWO_20)
  }

  // Every page of the snapshot is there when it is read.
  ghost predicate ReadWhole(r: Round, s: Snapshot) {
    forall va: nat :: Wanted(r, va) ==> HasPage(AsRead(s.pagemap), va)
  }

  // An entry that does not fit its length is a long hole.
  lemma EntryIsLongHole(r: Round, parent: Option<Snapshot>, s: Snapshot, k: nat)
    requires IsDump(r, parent, s) && k < |s.pagemap| && s.pagemap[k].nrPages >= TWO_20
    ensures LongHole(r, parent)
  {
    hide Wanted, LeftToParent, HoleGaps, OwnBefore, Sorted;
    var from := s.pagemap[k].vaddr;
    forall va: nat | from <= va < from + TWO_20
      ensures Wanted(r, va) && LeftToParent(r, ParentMap(parent), va)
    {
      LeftToSomeParent(r, parent, s, k, va);
    }
    assert CleanRun(r, parent, from, TWO_20);
  }

  // A page left to the parent is in a hole.
  lemma CleanInHole(r: Round, parent: Option<Snapshot>, s: Snapshot, va: nat) returns (k: nat)
    requires IsDump(r, parent, s) && Wanted(r, va) && LeftToParent(r, ParentMap(parent), va)
    ensures k < |s.pagemap| && s.pagemap[k].inParent && s.pagemap[k].Covers(va)
  {
    hide Wanted, LeftToParent, HoleGaps, OwnBefore, Sorted;
    assert HasPage(s.pagemap, va) && !HasOwnPage(s.pagemap, va);
    k :| 0 <= k < |s.pagemap| && s.pagemap[k].Covers(va);
  }

  // A long hole is one entry.
  lemma {:induction false} LongHoleIsEntry(r: Round, parent: Option<Snapshot>, s: Snapshot, from: nat, n: nat, k: nat)
    requires IsDump(r, parent, s) && CleanRun(r, parent, from, n + 1)
    requires k < |s.pagemap| && s.pagemap[k].inParent && s.pagemap[k].Covers(from)
    ensures s.pagemap[k].Covers(from + n)
    decreases n
  {
    if n > 0 {
      hide Wanted, LeftToParent, OwnBefore;
      assert CleanRun(r, parent, from, n);
      LongHoleIsEntry(r, parent, s, from, n - 1, k);
      var j := CleanInHole(r, parent, s, from + n);
      if j != k {
        NextEntryStarts(s.pagemap, k, j, from + n - 1);
      }
    }
  }

  // Entries that hold two addresses in a row follow one another.
  lemma NextEntryStarts(pm: seq<Entry>, k: nat, j: nat, va: nat)
    requires Sorted(pm) && k < |pm| && j < |pm| && j != k && pm[k].Covers(va) && pm[j].Covers(va + 1)
    requires forall i :: 0 <= i < |pm| ==> pm[i].nrPages > 0
    ensures j == k + 1 && pm[k].End() == pm[j].vaddr
  {
    assert k + 1 < |pm| ==> pm[k].End() <= pm[k + 1].vaddr;
  }

  /** What the last dump of a chain wrote is read whole exactly if it left no four gigabytes in a row to its parent. */
  lemma ReadWholeExactly(r: Round, parent: Option<Snapshot>, s: Snapshot)
    requires IsDump(r, parent, s)
    ensures ReadWhole(r, s) <==> !LongHole(r, parent)
  {
    hide Wanted, LeftToParent, HoleGaps, OwnBefore, Sorted, Narrow, CleanRun;
    if LongHole(r, parent) {
      var from: nat :| CleanRun(r, parent, from, TWO_20);
      CleanRunHas(r, parent, from, TWO_20, from);
      var k := CleanInHole(r, parent, s, from);
      LongHoleIsEntry(r, parent, s, from, TWO_20 - 1, k);
      CutOff(r, parent, s, k);
    } else {
      forall va: nat | Wanted(r, va)
        ensures HasPage(AsRead(s.pagemap), va)
      {
        assert HasPage(s.pagemap, va);
        var k :| 0 <= k < |s.pagemap| && s.pagemap[k].Covers(va);
        if s.pagemap[k].nrPages >= TWO_20 {
          EntryIsLongHole(r, parent, s, k);
        }
        NarrowFits(s.pagemap[k]);
        assert AsRead(s.pagemap)[k].Covers(va);
      }
    }
  }

  lemma CleanRunHas(r: Round, parent: Option<Snapshot>, from: nat, n: nat, va: nat)
    requires CleanRun(r, parent, from, n) && from <= va < from + n
    ensures Wanted(r, va) && LeftToParent(r, ParentMap(parent), va)
  {
  }

  // The end of an entry that does not fit its length is not read.
  lemma CutOff(r: Round, parent: Option<Snapshot>, s: Snapshot, k: nat)
    requires IsDump(r, parent, s) && k < |s.pagemap| && s.pagemap[k].nrPages >= TWO_20
    ensures !ReadWhole(r, s)
  {
    hide Wanted, LeftToParent, HoleGaps, OwnBefore, Narrow;
    var e := s.pagemap[k];
    var va := e.vaddr + e.nrPages % TWO_20;
    assert e.Covers(va) && HasPage(s.pagemap, va);
    forall j | 0 <= j < |s.pagemap|
      ensures !AsRead(s.pagemap)[j].Covers(va)
    {
      NarrowFits(s.pagemap[j]);
      NarrowFits(e);
    }
    assert !HasPage(AsRead(s.pagemap), va);
  }

  // A task with four clean gigabytes is enough: the first dump is read whole, the second is not.
  lemma FourCleanGigabytes(r: Round, s: Snapshot, r': Round, s': Snapshot, from: nat)
    requires IsDump(r, None, s) && IsDump(r', Some(s), s')
    requires forall va: nat :: from <= va < from + TWO_20 ==>
               Wanted(r, va) && Wanted(r', va) && !r'.pme(va).softDirty
    ensures ReadWhole(r, s) && !ReadWhole(r', s')
  {
    hide Wanted, IsDump;
    assert !LongHole(r, None) by {
      forall a: nat ensures !CleanRun(r, None, a, TWO_20) {
        assert !LeftToParent(r, ParentMap(None), a);
      }
    }
    ReadWholeExactly(r, None, s);
    assert CleanRun(r', Some(s), from, TWO_20);
    ReadWholeExactly(r', Some(s), s');
  }

  // Every dump of some rounds had room for all its writes.
  ghost predicate AllWhole(rooms: seq<Option<nat>>, fulls: seq<Snapshot>) {
    |fulls| <= |rooms| && forall i :: 0 <= i < |fulls| ==> RoomFor(rooms[i], EntryWrites(fulls[i].pagemap))
  }

  // On top of some parent or other the pages of a round can take more runs than there are iovs.
  ghost predicate MayRunOut(r: Round, nrIovs: nat, most: nat) {
    exists parent: Option<seq<Entry>> :: TooManyRuns(r, parent, nrIovs, most)
  }

  /** Dumps round after round, each on top of what the one before has written. If all are reported as done, that is a
      chain of snapshots exactly if each of them had room for all its writes. */
  method DumpRounds(rounds: seq<Round>, nrIovs: nat, most: nat, rooms: seq<Option<nat>>, trackMem: bool, flaky: bool)
    returns (ret: int, s: Snapshot, ghost fulls: seq<Snapshot>)
    requires rounds != [] && (forall i :: 0 <= i < |rounds| ==> VmasSorted(rounds[i].vmas)) && |rooms| == |rounds|
    requires 0 < most < PIPE_PAGES
    ensures ret == 0 ==> |fulls| == |rounds| && (IsChain(rounds, s) <==> AllWhole(rooms, fulls))
    ensures ret == 0 || flaky || exists i :: 0 <= i < |rounds| && MayRunOut(rounds[i], nrIovs, most)
  {
    hide VmasSorted, TooManyRuns, DumpedOrCut, IsChain, EntryWrites, RoomFor, Sorted;
    ghost var full;
    ret, s, full := DumpTask(rounds[0], None, nrIovs, most, rooms[0], trackMem, flaky);
    fulls := [full];
    if ret == 0 {
      FirstInChain(rounds[0], full, s, RoomFor(rooms[0], EntryWrites(full.pagemap)));
    }
    assert rounds[..1] == [rounds[0]];
    var i := 1;
    while ret == 0 && i < |rounds|
      invariant 1 <= i <= |rounds| && |fulls| == i
      invariant ret == 0 ==> Sorted(s.pagemap) && (IsChain(rounds[..i], s) <==> AllWhole(rooms, fulls))
      invariant ret == 0 || flaky || exists j :: 0 <= j < |rounds| && MayRunOut(rounds[j], nrIovs, most)
    {
      ghost var parent := s;
      ret, s, full := DumpTask(rounds[i], Some(s), nrIovs, most, rooms[i], trackMem, flaky);
      if ret == 0 {
        NextInChain(rounds[..i], rounds[i], parent, full, s, RoomFor(rooms[i], EntryWrites(full.pagemap)));
      }
      assert rounds[..i + 1] == rounds[..i] + [rounds[i]];
      fulls := fulls + [full];
      i := i + 1;
    }
    assert rounds[..|rounds|] == rounds;
  }

  lemma {:induction false} FirstInChain(r: Round, full: Snapshot, s: Snapshot, whole: bool)
    requires full.parent.None? && DumpedOrCut(r, full, s, whole)
    ensures Sorted(s.pagemap) && (IsChain([r], s) <==> whole)
  {
  }

  lemma {:induction false} NextInChain(rounds: seq<Round>, r: Round, parent: Snapshot, full: Snapshot, s: Snapshot,
                                       whole: bool)
    requires rounds != [] && full.parent == Some(parent) && DumpedOrCut(r, full, s, whole)
    ensures Sorted(s.pagemap) && (IsChain(rounds + [r], s) <==> whole && IsChain(rounds, parent))
  {
    assert (rounds + [r])[..|rounds|] == rounds;
  }

  /** Every page of every area that is dumped reads as it did, provided that it is read back if it was wanted. */
  ghost predicate Restored(r: Round, s: Snapshot, m: Memory) {
    forall i, va: nat :: 0 <= i < |r.vmas| && Dumped(r.vmas[i]) && r.vmas[i].Holds(va) ==>
      (Wanted(r, va) ==> HasPage(AsRead(s.pagemap), va)) ==> m(va) == Some(r.mem(va))
  }

  /** Every page of every area that is dumped, written or not, reads as it did. */
  ghost predicate AllAsItWas(r: Round, m: Memory) {
    forall i, va: nat :: 0 <= i < |r.vmas| && Dumped(r.vmas[i]) && r.vmas[i].Holds(va) ==> m(va) == Some(r.mem(va))
  }

  // A page of an area belongs into the snapshot exactly if the area says so.
  lemma WantedIn(r: Round, i: nat, va: nat)
    requires VmasSorted(r.vmas) && i < |r.vmas| && Dumped(r.vmas[i]) && r.vmas[i].Holds(va)
    ensures Wanted(r, va) <==> ShouldDumpPage(r.vmas[i], r.pme(va))
  {
    WantedHere(r, i, va);
    WantedSoFar(r, i, va);
  }

  // What was dumped and what was not make up the memory.
  lemma {:induction false} MemoryBack(r: Round, s: Snapshot, files: nat -> Page, m: Memory)
    requires VmasSorted(r.vmas) && IsDump(r, s.parent, s) && KernelSays(r, files)
    requires Faithful(ChainAsRead(s), r.mem) && ReadsAs(r.vmas, files, s, m)
    ensures Restored(r, s, m)
  {
    hide VmasSorted, Wanted, IsDump, Lookup, HasPage, WellFormed, KernelSays, ShouldDumpPage;
    forall i, va: nat | 0 <= i < |r.vmas| && Dumped(r.vmas[i]) && r.vmas[i].Holds(va)
      && (Wanted(r, va) ==> HasPage(AsRead(s.pagemap), va))
      ensures m(va) == Some(r.mem(va))
    {
      WantedIn(r, i, va);
      if HasPage(AsRead(s.pagemap), va) {
        assert ChainAsRead(s).pagemap == AsRead(s.pagemap);
      } else {
        SkippedIsFresh(r, files, i, va);
      }
    }
  }

  // Every page that is read has a private area, the one it was dumped from.
  lemma ReadHaveAreas(r: Round, s: Snapshot)
    requires IsDump(r, s.parent, s)
    ensures AllHaveAreas(s, r.vmas)
  {
    hide IsDump, HasPage;
    forall va: nat | HasPage(AsRead(s.pagemap), va) ensures HasPrivateArea(r.vmas, va) {
      ReadWanted(r, s, va);
      var i :| 0 <= i < |r.vmas| && Dumped(r.vmas[i]) && r.vmas[i].start <= va < r.vmas[i].end;
      assert r.vmas[i].Holds(va);
    }
  }

  lemma AllOfIt(r: Round, s: Snapshot, m: Memory)
    requires Restored(r, s, m) && IsDump(r, s.parent, s) && !LongHole(r, s.parent)
    ensures AllAsItWas(r, m)
  {
    hide IsDump, Wanted, LongHole, HasPage;
    ReadWholeExactly(r, s.parent, s);
  }

  /** End to end: after any number of incremental dumps whose images could be written, and a restore from the last of
      them, every page of every area that is dumped, whether it was ever written or not, reads at its address as it did
      at the last dump, unless four gigabytes in a row were left to the parent. This is for areas that are movable.
      If moreover no call fails, the pages take no more runs than there are iovs and no guard page is in the way, it
      fails exactly if the size of some area is taken for an error. */
  method DumpAndRestore(rounds: seq<Round>, nrIovs: nat, most: nat, base: nat, files: nat -> Page, m0: Memory,
                        trackMem: bool, flaky: bool)
    returns (ret: int, m: Memory, s: Snapshot)
    requires rounds != [] && forall i :: 0 <= i < |rounds| ==> VmasSorted(rounds[i].vmas)
    requires AllCleanKept(rounds) && 0 < most < PIPE_PAGES
    requires rounds[|rounds| - 1].vmas != [] && KernelSays(rounds[|rounds| - 1], files)
    ensures ret == 0 ==> DumpsOf(rounds, s) && Proper(rounds[|rounds| - 1].vmas)
    ensures ret == 0 && Movable(rounds[|rounds| - 1].vmas, base) ==> Restored(rounds[|rounds| - 1], s, m)
    ensures ret == 0 && Movable(rounds[|rounds| - 1].vmas, base) && !LongHole(rounds[|rounds| - 1], s.parent) ==>
              AllAsItWas(rounds[|rounds| - 1], m)
    ensures !flaky && (forall i :: 0 <= i < |rounds| ==> !MayRunOut(rounds[i], nrIovs, most)) ==>
              DumpsOf(rounds, s) &&
              var vmas := rounds[|rounds| - 1].vmas;
              (Movable(vmas, base) && !GuardInWay(vmas, base) ==> (ret == 0 <==> SizesReturned(vmas, |vmas|)))
  {
    hide VmasSorted, WellFormed, AllCleanKept, MayRunOut, AllWhole, Movable, SizesReturned, AllHaveAreas, Restored,
         AllAsItWas, LongHole, IsChain, ReadsAs, IsDump, KernelSays, GuardInWay, HasPage, Lookup;
    m := m0;
    var rooms := seq(|rounds|, _ => None);
    ghost var fulls;
    ret, s, fulls := DumpRounds(rounds, nrIovs, most, rooms, trackMem, flaky);
    if ret != 0 {
      return;
    }
    NoLimit(rooms, fulls);
    ChainIsFaithful(rounds, s);
    LastDump(rounds, s);
    var r := rounds[|rounds| - 1];
    ReadHaveAreas(r, s);
    SortedStarts(r.vmas);
    ret, m := RestoreMemory(s, r.vmas, base, files, m0, flaky);
    if ret == 0 && Movable(r.vmas, base) {
      MemoryBack(r, s, files, m);
      if !LongHole(r, s.parent) {
        AllOfIt(r, s, m);
      }
    }
  }

  lemma {:induction false} LastDump(rounds: seq<Round>, s: Snapshot)
    requires IsChain(rounds, s)
    ensures IsDump(rounds[|rounds| - 1], s.parent, s)
  {
  }

  lemma NoLimit(rooms: seq<Option<nat>>, fulls: seq<Snapshot>)
    requires |fulls| == |rooms| && forall i :: 0 <= i < |rooms| ==> rooms[i] == None
    ensures AllWhole(rooms, fulls)
  {
  }

  /** Where no write succeeds a dump is reported as done all the same, and so is the restore from it, and every page is
      as if it was never written. */
  method FullDisk(r: Round, nrIovs: nat, most: nat, base: nat, files: nat -> Page, m0: Memory)
    returns (ret: int, s: Snapshot, m: Memory)
    requires VmasSorted(r.vmas) && r.vmas != [] && 0 < most < PIPE_PAGES
    requires Proper(r.vmas) && Movable(r.vmas, base) && !GuardInWay(r.vmas, base) && SizesReturned(r.vmas, |r.vmas|)
    ensures ret == 0 || TooManyRuns(r, None, nrIovs, most)
    ensures ret == 0 ==> (exists va: nat :: Wanted(r, va)) ==> !IsDump(r, None, s)
    ensures ret == 0 ==> forall i, va: nat :: 0 <= i < |r.vmas| && r.vmas[i].Private() && r.vmas[i].Holds(va) ==>
                           m(va) == Some(r.vmas[i].Fresh(files, va))
  {
    hide TooManyRuns, DumpedOrCut, Wanted, VmasSorted, Movable, GuardInWay, SizesReturned;
    m := m0;
    ghost var full;
    ret, s, full := DumpTask(r, None, nrIovs, most, Some(0), false, false);
    if ret != 0 {
      return;
    }
    NothingWritten(r, s);
    ret, m := RestoreMemory(s, r.vmas, base, files, m0, false);
  }

  lemma {:induction false} NothingWritten(r: Round, s: Snapshot)
    requires s == Snapshot([], [], None)
    ensures WellFormed(ChainAsRead(s)) && ChainAsRead(s) == s && forall va: nat :: !HasPage(AsRead(s.pagemap), va)
    ensures (exists va: nat :: Wanted(r, va)) ==> !IsDump(r, None, s)
  {
    assert AsRead([]) == [];
  }

  // A task of one page, which is lost.
  method LostPage(page: Page, files: nat -> Page) returns (ret: int, s: Snapshot, m: Memory)
    ensures var r := Round([Vma(16, 17, AnonPrivate, false, false)], _ => Pme(true, false, false, true), _ => page);
            ret == 0 && !IsDump(r, None, s) && m(16) == Some(ZeroPage())
  {
    hide TooManyRuns, IsDump, Movable, GuardInWay, SizesReturned, VmasSorted, WantedAmong;
    var vmas := [Vma(16, 17, AnonPrivate, false, false)];
    var r := Round(vmas, _ => Pme(true, false, false, true), _ => page);
    OneArea(r, page);
    ret, s, m := FullDisk(r, 1, 16, 100, files, _ => None);
    assert vmas[0].Private() && vmas[0].Holds(16);
    assert m(16) == Some(vmas[0].Fresh(files, 16));
  }

  lemma OneArea(r: Round, page: Page)
    requires r.vmas == [Vma(16, 17, AnonPrivate, false, false)] && r.pme(16) == Pme(true, false, false, true)
    ensures VmasSorted(r.vmas) && Proper(r.vmas) && Movable(r.vmas, 100) && !GuardInWay(r.vmas, 100)
    ensures SizesReturned(r.vmas, 1) && Wanted(r, 16) && !TooManyRuns(r, None, 1, 16)
  {
    assert r.vmas[0].start <= 16 < r.vmas[0].end && Dumped(r.vmas[0]);
    assert Wanted(r, 16) && forall va: nat :: Wanted(r, va) ==> va == 16;
    forall bound: nat, pages: seq<nat> | ToStore(r, None, bound, pages) ensures MostRuns(pages, 16) <= 1 {
      OnePage(r, bound, pages);
    }
    assert PrivSize(r.vmas, 1) == 1 && Advance(r.vmas[0]) == 1;
  }

  lemma OnePage(r: Round, bound: nat, pages: seq<nat>)
    requires ToStore(r, None, bound, pages) && forall va: nat :: Wanted(r, va) ==> va == 16
    ensures MostRuns(pages, 16) <= 1
  {
    assert forall i :: 0 <= i < |pages| ==> pages[i] in pages && pages[i] == 16;
    assert forall i, j :: 0 <= i < j < |pages| ==> pages[i] < pages[j];
  }
}
