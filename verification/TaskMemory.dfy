/** The whole way of a task's memory back: mapping its private areas somewhere, reading the pages into them, and moving
    them to where they belong (cr-restore.c, pie/restorer.c). */
module TaskMemory {
  import opened Options
  import opened PageImages
  import opened PageReader
  import opened Areas
  import opened Restore
  import opened Premap
  import opened Restorer

  // How many pages the first n areas take to be mapped, one after another.
  function PrivSize(vmas: seq<Vma>, n: nat): nat
    requires Proper(vmas) && n <= |vmas|
  {
    if n == 0 then 0 else PrivSize(vmas, n - 1) + if vmas[n - 1].Private() then MapPages(vmas[n - 1]) else 0
  }

  // Areas in order, at least one.
  ghost predicate AreasSorted(vmas: seq<Vma>) {
    vmas != [] && VmasSorted(vmas)
  }

  // Below an area that grows down there is a page for its guard.
  ghost predicate GuardGaps(vmas: seq<Vma>) {
    forall i, j :: 0 <= i && j == i + 1 && j < |vmas| && vmas[j].Private() && vmas[j].growsDown ==>
      vmas[i].end < vmas[j].start
  }

  /** Areas that can all be mapped side by side and moved to their places: no private area but the last has two
      gigabytes, guard pages have room, and all lies below the end of the address space. */
  ghost predicate Movable(vmas: seq<Vma>, base: nat) {
    && Proper(vmas) && SmallAreas(vmas) && GuardGaps(vmas) && base + PrivSize(vmas, |vmas|) <= TASK_PAGES
    && forall i :: 0 <= i < |vmas| && vmas[i].Private() ==> vmas[i].end <= TASK_PAGES
  }

  lemma {:induction false} PrivSizeRises(vmas: seq<Vma>, i: nat, j: nat)
    requires Proper(vmas) && i <= j <= |vmas|
    ensures PrivSize(vmas, i) <= PrivSize(vmas, j)
    decreases j
  {
    if i < j {
      PrivSizeRises(vmas, i, j - 1);
    }
  }

  // As long as a private area is yet to come, all are mapped without a gap.
  lemma {:induction false} PlaceIsSum(vmas: seq<Vma>, k: nat, j: nat, base: nat)
    requires Proper(vmas) && SmallAreas(vmas) && k <= j < |vmas| && vmas[j].Private()
    ensures PlaceAt(vmas, k, base) == base + PrivSize(vmas, k)
    decreases k
  {
    if k > 0 {
      PlaceIsSum(vmas, k - 1, j, base);
      if vmas[k - 1].Private() {
        assert MapPages(vmas[k - 1]) * PAGE_SIZE < TWO_31;
        AsIntIs(vmas[k - 1]);
      }
    }
  }

  // Every page of the reserved range belongs to one private area.
  lemma {:induction false} TileOf(vmas: seq<Vma>, n: nat, x: nat) returns (i: nat)
    requires Proper(vmas) && n <= |vmas| && x < PrivSize(vmas, n)
    ensures i < n && vmas[i].Private() && PrivSize(vmas, i) <= x < PrivSize(vmas, i) + MapPages(vmas[i])
    decreases n
  {
    if x < PrivSize(vmas, n - 1) {
      i := TileOf(vmas, n - 1, x);
    } else {
      i := n - 1;
    }
  }

  // Where a private area is mapped.
  lemma {:induction false} AreaAt(vmas: seq<Vma>, base: nat, areas: seq<Area>, i: nat)
    requires Proper(vmas) && SmallAreas(vmas) && |areas| == |vmas| && AllMapped(vmas, base, areas)
    requires i < |vmas| && vmas[i].Private()
    ensures PlaceAt(vmas, i, base) == base + PrivSize(vmas, i)
    ensures areas[i] == Area(vmas[i].start, vmas[i].end, true, base + PrivSize(vmas, i) + GuardPages(vmas[i]))
    ensures Len(areas[i]) == vmas[i].end - vmas[i].start
    ensures areas[i].premapped + Len(areas[i]) <= base + PrivSize(vmas, |vmas|)
  {
    hide PlaceAt;
    PlaceIsSum(vmas, i, i, base);
    PrivSizeRises(vmas, i + 1, |vmas|);
  }

  // A freshly mapped area reads as if it was never written.
  lemma {:induction false} FreshPlace(vmas: seq<Vma>, n: nat, base: nat, files: nat -> Page, m0: Memory, i: nat,
                                      va: nat)
    requires Proper(vmas) && SmallAreas(vmas) && i < n <= |vmas| && vmas[i].Private() && vmas[i].Holds(va)
    ensures MapAll(vmas, n, base, files, m0)(base + PrivSize(vmas, i) + GuardPages(vmas[i]) + (va - vmas[i].start))
            == Some(vmas[i].Fresh(files, va))
    decreases n
  {
    hide PlaceAt;
    var x := base + PrivSize(vmas, i) + GuardPages(vmas[i]) + (va - vmas[i].start);
    if i == n - 1 {
      PlaceIsSum(vmas, i, i, base);
      var addr, e := base + PrivSize(vmas, i), vmas[i];
      WithAreaAt(MapAll(vmas, n - 1, base, files, m0), e, addr, files, va);
      assert MapAll(vmas, n, base, files, m0)
             == WithArea(MapAll(vmas, n - 1, base, files, m0), e, addr, files);
    } else {
      FreshPlace(vmas, n - 1, base, files, m0, i, va);
      if vmas[n - 1].Private() {
        PlaceIsSum(vmas, n - 1, n - 1, base);
        PrivSizeRises(vmas, i + 1, n - 1);
      }
    }
  }

  lemma WithAreaAt(m: Memory, e: Vma, addr: nat, files: nat -> Page, va: nat)
    requires e.start <= e.end && e.Holds(va)
    ensures WithArea(m, e, addr, files)(addr + GuardPages(e) + (va - e.start)) == Some(e.Fresh(files, va))
  {
    var x := addr + GuardPages(e) + (va - e.start);
    var a := e.start + (x - addr - GuardPages(e));
    assert a == va && addr + GuardPages(e) <= x < addr + MapPages(e);
    assert WithArea(m, e, addr, files)(x) == Some(e.Fresh(files, a));
  }

  // Everything outside of what is needed is unmapped.
  function UnmapOld(m: Memory, base: nat, n: nat): Memory {
    (x: nat) => if base <= x < base + n then m(x) else None
  }

  // Pages that are put in place leave memory mapped.
  lemma PutKeepsMapped(areas: seq<Area>, s: Snapshot, bound: nat, was: Memory, mem: Memory, a: nat)
    requires PlacesApart(areas) && RestoredBelow(areas, s, bound, was, mem) && was(a).Some?
    ensures mem(a).Some?
  {
    hide PlacesApart, HasPage, HasHome;
    if IsPlace(areas, s, bound, a) {
      var v: nat, va: nat :| v < |areas| && areas[v].Holds(va) && va < bound && HasPage(s.pagemap, va)
        && areas[v].Place(va) == a;
      assert Put(areas, s, mem, v, va);
    }
  }

  // What is read from a place is the page that was put there, or what was there before.
  lemma {:induction false} ReadsAt(areas: seq<Area>, s: Snapshot, was: Memory, mem: Memory, i: nat, va: nat)
    requires AreasOk(areas) && PlacesApart(areas) && Sorted(s.pagemap)
    requires RestoredBelow(areas, s, PagemapEnd(s.pagemap, |s.pagemap|), was, mem)
    requires i < |areas| && areas[i].priv && areas[i].Holds(va)
    ensures HasPage(s.pagemap, va) ==> mem(areas[i].premapped + (va - areas[i].start)) == Lookup(s, va)
    ensures !HasPage(s.pagemap, va) ==>
              mem(areas[i].premapped + (va - areas[i].start)) == was(areas[i].premapped + (va - areas[i].start))
  {
    hide AreasOk, PlacesApart, HasPage, Lookup, Sorted, HasHome;
    var bound, a := PagemapEnd(s.pagemap, |s.pagemap|), areas[i].premapped + (va - areas[i].start);
    if HasPage(s.pagemap, va) {
      BelowEnd(s.pagemap, va);
      assert Put(areas, s, mem, i, va);
    } else if IsPlace(areas, s, bound, a) {
      var w: nat, vb: nat :| w < |areas| && areas[w].Holds(vb) && vb < bound && HasPage(s.pagemap, vb)
        && areas[w].Place(vb) == a;
      assert HasHome(areas, vb);
      HomeIsPrivate(areas, w, vb);
      OneArea(areas, i, w, va, vb);
    }
  }

  // The pages that are left mapped and belong to no area are guard pages.
  lemma ExtraIsGuard(vmas: seq<Vma>, base: nat, areas: seq<Area>, m: Memory, x: nat) returns (k: nat)
    requires Proper(vmas) && SmallAreas(vmas) && |areas| == |vmas| && AllMapped(vmas, base, areas)
    requires Extra(areas, UnmapOld(m, base, PrivSize(vmas, |vmas|)), x)
    ensures k < |vmas| && vmas[k].Private() && vmas[k].growsDown && x == base + PrivSize(vmas, k)
  {
    hide PlaceAt, PrivSize, SmallAreas, AllMapped;
    k := TileOf(vmas, |vmas|, x - base);
    AreaAt(vmas, base, areas, k);
  }

  // The guard page of an area that was mapped, where another area begins or ends.
  ghost predicate GuardInWay(vmas: seq<Vma>, base: nat)
    requires Proper(vmas)
  {
    exists i, k :: 0 <= i < |vmas| && 0 <= k < |vmas| && vmas[i].Private() && vmas[k].Private() && vmas[k].growsDown
      && (base + PrivSize(vmas, k) == vmas[i].start || base + PrivSize(vmas, k) + 1 == vmas[i].end)
  }

  lemma {:induction false} InWayIsGuard(vmas: seq<Vma>, base: nat, areas: seq<Area>, m: Memory)
    requires Proper(vmas) && SmallAreas(vmas) && |areas| == |vmas| && AllMapped(vmas, base, areas)
    requires InWay(areas, UnmapOld(m, base, PrivSize(vmas, |vmas|)))
    ensures GuardInWay(vmas, base)
  {
    hide PlaceAt, PrivSize, SmallAreas, Extra;
    var m1 := UnmapOld(m, base, PrivSize(vmas, |vmas|));
    var i: nat, x: nat :| i < |areas| && areas[i].priv && Extra(areas, m1, x)
      && (x == areas[i].start || x + 1 == areas[i].end);
    var k := ExtraIsGuard(vmas, base, areas, m, x);
    assert vmas[i].Private();
  }

  // Areas are mapped no further apart than they belong.
  lemma {:induction false} NoFurtherApart(vmas: seq<Vma>, i: nat, j: nat, base: int)
    requires VmasSorted(vmas) && Proper(vmas) && GuardGaps(vmas) && i <= j < |vmas|
    ensures PlaceAt(vmas, j, base) + Guarded(vmas[j]) - (PlaceAt(vmas, i, base) + Guarded(vmas[i]))
            <= vmas[j].start - vmas[i].start
    decreases j
  {
    if i < j {
      hide AsInt;
      NoFurtherApart(vmas, i, j - 1, base);
      AdvanceAtMost(vmas[j - 1]);
      assert vmas[j - 1].end <= vmas[j].start;
    }
  }

  function Guarded(e: Vma): nat {
    if e.Private() then GuardPages(e) else 0
  }

  lemma AdvanceAtMost(e: Vma)
    requires e.start <= e.end
    ensures Advance(e) <= if e.Private() then MapPages(e) else 0
  {
  }

  // So no area that goes right lies before one that goes left.
  lemma NoneCross(vmas: seq<Vma>, base: nat, areas: seq<Area>)
    requires VmasSorted(vmas) && Proper(vmas) && GuardGaps(vmas) && |areas| == |vmas| && AllMapped(vmas, base, areas)
    ensures !Crossed(areas)
  {
    hide PlaceAt, GuardGaps, VmasSorted;
    forall i, j ensures !Crossing(areas, i, j) {
      if Crossing(areas, i, j) {
        NoFurtherApart(vmas, i, j, base);
      }
    }
  }

  /** Two areas that grow down, each with another right below it: what is mapped for them is further apart than they
      belong, and areas cross. */
  method TwoStacks(files: nat -> Page) returns (ret: int, areas: seq<Area>)
    ensures ret == 0 && Crossing(areas, 0, 2)
  {
    var vmas := [Vma(10, 12, AnonPrivate, false, false), Vma(12, 14, AnonPrivate, false, true),
                 Vma(14, 16, AnonPrivate, false, true)];
    var m;
    assert Advance(vmas[0]) == 2 && Advance(vmas[1]) == 3 && Advance(vmas[2]) == 3;
    ret, areas, m := PrepareMappings(vmas, 9, files, _ => None, false);
    OnePlace(vmas, 0, 9);
    OnePlace(vmas, 1, 9);
  }

  // What can be shifted after the pages are read.
  lemma {:induction false} ReadyToShift(vmas: seq<Vma>, base: nat, files: nat -> Page, m0: Memory, areas: seq<Area>,
                                        s: Snapshot, bound: nat, mem: Memory)
    requires AreasSorted(vmas) && Movable(vmas, base) && |areas| == |vmas| && AllMapped(vmas, base, areas)
    requires PlacesApart(areas) && RestoredBelow(areas, s, bound, MapAll(vmas, |vmas|, base, files, m0), mem)
    ensures CanShift(areas, UnmapOld(mem, base, PrivSize(vmas, |vmas|)))
  {
    hide PlaceAt, PrivSize, SmallAreas, GuardGaps, RestoredBelow, PlacesApart, MapAll;
    var m1 := UnmapOld(mem, base, PrivSize(vmas, |vmas|));
    SortedAreas(vmas, base, areas);
    forall i | 0 <= i < |areas| && areas[i].priv
      ensures areas[i].start <= areas[i].end <= TASK_PAGES && areas[i].premapped + Len(areas[i]) <= TASK_PAGES
      ensures IsMapped(m1, areas[i].premapped, Len(areas[i]))
    {
      assert vmas[i].Private();
      AreaAt(vmas, base, areas, i);
      forall x: nat | areas[i].premapped <= x < areas[i].premapped + Len(areas[i]) ensures m1(x).Some? {
        var va := vmas[i].start + (x - areas[i].premapped);
        FreshPlace(vmas, |vmas|, base, files, m0, i, va);
        PutKeepsMapped(areas, s, bound, MapAll(vmas, |vmas|, base, files, m0), mem, x);
      }
    }
  }

  lemma SortedAreas(vmas: seq<Vma>, base: nat, areas: seq<Area>)
    requires AreasSorted(vmas) && Proper(vmas) && |areas| == |vmas| && AllMapped(vmas, base, areas)
    ensures AreasOk(areas)
  {
    hide PlaceAt;
    forall i, j | 0 <= i < j < |areas| ensures areas[i].end <= areas[j].start {
      assert areas[i].end == vmas[i].end && areas[j].start == vmas[j].start;
    }
  }

  ghost predicate HasPrivateArea(vmas: seq<Vma>, va: nat) {
    exists v :: 0 <= v < |vmas| && vmas[v].Holds(va) && vmas[v].Private()
  }

  // Every page that is read has a private area.
  ghost predicate AllHaveAreas(s: Snapshot, vmas: seq<Vma>) {
    forall va: nat :: HasPage(AsRead(s.pagemap), va) ==> HasPrivateArea(vmas, va)
  }

  lemma SameHomes(vmas: seq<Vma>, base: nat, areas: seq<Area>, va: nat)
    requires Proper(vmas) && |areas| == |vmas| && AllMapped(vmas, base, areas)
    ensures HasHome(areas, va) <==> HasPrivateArea(vmas, va)
  {
    hide PlaceAt;
    if HasHome(areas, va) {
      var v :| 0 <= v < |areas| && areas[v].Holds(va) && areas[v].priv;
      assert vmas[v].Holds(va) && vmas[v].Private();
    }
    if HasPrivateArea(vmas, va) {
      var v :| 0 <= v < |vmas| && vmas[v].Holds(va) && vmas[v].Private();
      assert areas[v].Holds(va) && areas[v].priv;
    }
  }

  /** Every page of every private area, at its address: what the chain of snapshots has for it, or else what it is if it
      was never written. */
  ghost predicate ReadsAs(vmas: seq<Vma>, files: nat -> Page, s: Snapshot, m: Memory) {
    forall i, va: nat :: 0 <= i < |vmas| && vmas[i].Private() && vmas[i].Holds(va) ==>
      m(va) == if HasPage(AsRead(s.pagemap), va) then Lookup(ChainAsRead(s), va) else Some(vmas[i].Fresh(files, va))
  }

  // From the places the pages were read to, to where they belong.
  lemma {:induction false} ShiftedReads(vmas: seq<Vma>, base: nat, files: nat -> Page, m0: Memory, areas: seq<Area>,
                                        s: Snapshot, mem: Memory, m: Memory)
    requires AreasSorted(vmas) && Proper(vmas) && SmallAreas(vmas) && |areas| == |vmas| && AllMapped(vmas, base, areas)
    requires PlacesApart(areas) && Sorted(AsRead(s.pagemap))
    requires var pm := AsRead(s.pagemap);
      RestoredBelow(areas, ChainAsRead(s), PagemapEnd(pm, |pm|), MapAll(vmas, |vmas|, base, files, m0), mem)
    requires forall j: nat :: j < |areas| && areas[j].priv ==>
      InPlace(UnmapOld(mem, base, PrivSize(vmas, |vmas|)), m, areas[j])
    ensures ReadsAs(vmas, files, s, m)
  {
    hide PlaceAt, PrivSize, SmallAreas, RestoredBelow, PlacesApart, MapAll, Lookup, HasPage, Sorted, AllMapped, AsRead;
    var c := ChainAsRead(s);
    SortedAreas(vmas, base, areas);
    forall i, va: nat | 0 <= i < |vmas| && vmas[i].Private() && vmas[i].Holds(va)
      ensures m(va) == if HasPage(c.pagemap, va) then Lookup(c, va) else Some(vmas[i].Fresh(files, va))
    {
      AreaAt(vmas, base, areas, i);
      ReadsAt(areas, c, MapAll(vmas, |vmas|, base, files, m0), mem, i, va);
      FreshPlace(vmas, |vmas|, base, files, m0, i, va);
      assert InPlace(UnmapOld(mem, base, PrivSize(vmas, |vmas|)), m, areas[i]);
      assert areas[i].Holds(va);
    }
  }

  /** Restores the memory of a task from a chain of snapshots. If the areas are movable then every page of every private
      area is at its address, with what the chain has for it, or as if it was never written. It fails only if a call
      does, if the size of an area is taken for an error, if a page has no private area, or if the guard page of a
      mapping is in the way. */
  method RestoreMemory(s: Snapshot, vmas: seq<Vma>, base: nat, files: nat -> Page, m0: Memory, flaky: bool)
    returns (ret: int, m: Memory)
    requires AreasSorted(vmas) && WellFormed(ChainAsRead(s))
    ensures ret == 0 ==> Proper(vmas) && SizesReturned(vmas, |vmas|) && AllHaveAreas(s, vmas)
    ensures ret == 0 && Movable(vmas, base) ==> ReadsAs(vmas, files, s, m)
    ensures ret != 0 && Movable(vmas, base) && !flaky ==>
              !SizesReturned(vmas, |vmas|) || !AllHaveAreas(s, vmas) || GuardInWay(vmas, base)
  {
    hide WellFormed, AreasOk, HasPage, RestoredBelow, HasHome, HasPrivateArea, AllMapped, SizesReturned, PlacesApart,
         MapAll, PrivSize, SmallAreas, CanShift, Crossed, InWay, GuardInWay, Lookup, InPlace, Waits, Crossing,
         GuardGaps, VmasSorted, ReadsAs;
    SortedStarts(vmas);
    var areas;
    ret, areas, m := PrepareMappings(vmas, base, files, m0, flaky);
    if ret != 0 {
      return;
    }
    SortedAreas(vmas, base, areas);
    forall va: nat ensures HasHome(areas, va) <==> HasPrivateArea(vmas, va) {
      SameHomes(vmas, base, areas, va);
    }
    var pr := OpenPageRead(s);
    ret, m := RestoreContent(pr, areas, m);
    if ret != 0 {
      return;
    }
    ghost var mem := m;
    m := UnmapOld(m, base, PrivSize(vmas, |vmas|));
    ret, m := ShiftVmas(areas, m, flaky);
    if Movable(vmas, base) {
      ghost var pm := AsRead(s.pagemap);
      ReadyToShift(vmas, base, files, m0, areas, ChainAsRead(s), PagemapEnd(pm, |pm|), mem);
      NoneCross(vmas, base, areas);
      if ret == 0 {
        ChainSorted(s);
        ShiftedReads(vmas, base, files, m0, areas, s, mem, m);
      } else if !flaky {
        InWayIsGuard(vmas, base, areas, mem);
      }
    }
  }

  lemma {:induction false} ChainSorted(s: Snapshot)
    requires WellFormed(ChainAsRead(s))
    ensures Sorted(AsRead(s.pagemap))
  {
    assert WellFormedImage(ChainAsRead(s));
  }

  lemma SortedStarts(vmas: seq<Vma>)
    requires AreasSorted(vmas)
    ensures Proper(vmas) && StartsAscend(vmas, |vmas|)
  {
    forall i, j | 0 <= i < j < |vmas|
      ensures vmas[i].start <= vmas[j].start
    {
      assert vmas[i].end <= vmas[j].start;
    }
  }
}
