/** Putting the pages of a snapshot chain back into a task's areas (cr-restore.c). */
module Restore {
  import opened Options
  import opened PageImages
  import opened Areas
  import opened PageReader

  // An area to restore, and the place its pages are mapped at for now.
  datatype Area = Area(start: nat, end: nat, priv: bool, premapped: nat) {
    predicate Holds(va: nat) {
      start <= va < end
    }

    function Place(va: nat): nat
      requires start <= va
    {
      premapped + (va - start)
    }
  }

  // The areas are in order.
  ghost predicate AreasOk(areas: seq<Area>) {
    areas != [] && forall i, j :: 0 <= i < j < |areas| ==> areas[i].end <= areas[j].start
  }

  // The private areas are mapped for now one after another; the others are not mapped.
  ghost predicate PlacesApart(areas: seq<Area>) {
    forall i, j :: 0 <= i < j < |areas| && areas[i].priv && areas[j].priv ==>
      areas[i].premapped + (areas[i].end - areas[i].start) <= areas[j].premapped
  }

  // The area a page belongs to is private.
  ghost predicate HasHome(areas: seq<Area>, va: nat) {
    exists v :: 0 <= v < |areas| && areas[v].Holds(va) && areas[v].priv
  }

  ghost predicate Put(areas: seq<Area>, s: Snapshot, mem: Memory, v: nat, va: nat) {
    v < |areas| && areas[v].Holds(va) && Lookup(s, va).Some? && mem(areas[v].Place(va)) == Lookup(s, va)
  }

  // A place some page of the pagemap below an address is put at.
  ghost predicate IsPlace(areas: seq<Area>, s: Snapshot, bound: nat, a: nat) {
    exists v: nat, va: nat :: v < |areas| && areas[v].Holds(va) && va < bound && HasPage(s.pagemap, va)
      && areas[v].Place(va) == a
  }

  /** The pages below an address are back, each in its private area if these do not get in each other's way,
      and nothing else was touched. */
  ghost predicate RestoredBelow(areas: seq<Area>, s: Snapshot, bound: nat, was: Memory, mem: Memory) {
    && (forall va: nat :: va < bound && HasPage(s.pagemap, va) ==> HasHome(areas, va))
    && (PlacesApart(areas) ==>
          forall v: nat, va: nat :: v < |areas| && areas[v].Holds(va) && va < bound && HasPage(s.pagemap, va)
            ==> Put(areas, s, mem, v, va))
    && (forall a: nat :: !IsPlace(areas, s, bound, a) ==> mem(a) == was(a))
  }

  lemma OneArea(areas: seq<Area>, v: nat, w: nat, va: nat, vb: nat)
    requires AreasOk(areas) && v < |areas| && w < |areas| && areas[v].Holds(va) && areas[w].Holds(vb)
    ensures va == vb ==> v == w
    ensures PlacesApart(areas) && areas[v].priv && areas[w].priv && areas[v].Place(va) == areas[w].Place(vb) ==>
              va == vb
  {
  }

  // An address with a private area is held by no other.
  lemma HomeIsPrivate(areas: seq<Area>, w: nat, va: nat)
    requires AreasOk(areas) && HasHome(areas, va) && w < |areas| && areas[w].Holds(va)
    ensures areas[w].priv
  {
    var v :| 0 <= v < |areas| && areas[v].Holds(va) && areas[v].priv;
    OneArea(areas, v, w, va, va);
  }

  // A page is put in its place.
  lemma {:induction false} PutStep(areas: seq<Area>, s: Snapshot, was: Memory, mem: Memory, v: nat,
                                   va: nat, page: Page)
    requires AreasOk(areas) && RestoredBelow(areas, s, va, was, mem)
    requires v < |areas| && areas[v].Holds(va) && areas[v].priv && HasPage(s.pagemap, va)
    requires Lookup(s, va) == Some(page)
    ensures RestoredBelow(areas, s, va + 1, was, WithPage(mem, areas[v].Place(va), page))
  {
    hide Lookup, HasPage, AreasOk, PlacesApart;
    var now := WithPage(mem, areas[v].Place(va), page);
    assert HasHome(areas, va);
    forall w: nat, vb: nat | PlacesApart(areas) && w < |areas| && areas[w].Holds(vb) && vb < va + 1
                             && HasPage(s.pagemap, vb)
      ensures Put(areas, s, now, w, vb)
    {
      assert HasHome(areas, vb);
      HomeIsPrivate(areas, w, vb);
      OneArea(areas, v, w, va, vb);
      if vb < va {
        assert Put(areas, s, mem, w, vb);
      }
    }
    forall a: nat | !IsPlace(areas, s, va + 1, a)
      ensures now(a) == was(a)
    {
      assert !IsPlace(areas, s, va, a);
    }
  }

  // Addresses without a page need nothing.
  lemma PutNothing(areas: seq<Area>, s: Snapshot, was: Memory, mem: Memory, from: nat, to: nat)
    requires RestoredBelow(areas, s, from, was, mem) && from <= to
    requires forall va: nat :: from <= va < to ==> !HasPage(s.pagemap, va)
    ensures RestoredBelow(areas, s, to, was, mem)
  {
    hide Lookup, HasPage, Put, HasHome, PlacesApart;
    forall a: nat | !IsPlace(areas, s, to, a)
      ensures !IsPlace(areas, s, from, a)
    {
    }
    forall v: nat, va: nat | PlacesApart(areas) && v < |areas| && areas[v].Holds(va) && va < to
                             && HasPage(s.pagemap, va)
      ensures Put(areas, s, mem, v, va)
    {
      assert va < from;
    }
  }

  // Moves on to the area of an address, if that is a private one.
  method FindArea(areas: seq<Area>, from: nat, va: nat) returns (ret: int, v: nat)
    requires AreasOk(areas) && from < |areas| && forall i :: 0 <= i < from ==> areas[i].end <= va
    ensures ret == 0 || ret == -1
    ensures ret == 0 ==> v < |areas| && areas[v].Holds(va) && areas[v].priv
    ensures ret == 0 ==> forall i :: 0 <= i < v ==> areas[i].end <= va
    ensures ret == 0 <==> HasHome(areas, va)
  {
    v := from;
    while va >= areas[v].end
      invariant v < |areas| && forall i :: 0 <= i < v ==> areas[i].end <= va
      decreases |areas| - v
    {
      if v + 1 == |areas| {
        return -1, v;
      }
      v := v + 1;
    }
    if va < areas[v].start {
      return -1, v;
    } else if !areas[v].priv {
      return -1, v;
    }
    return 0, v;
  }

  function PagemapEnd(pm: seq<Entry>, n: nat): nat
    requires n <= |pm|
  {
    if n == 0 then 0 else pm[n - 1].End()
  }

  // What is read between two entries.
  lemma EntriesInOrder(pm: seq<Entry>, n: nat)
    requires Sorted(pm) && n < |pm|
    ensures PagemapEnd(pm, n) <= pm[n].vaddr
    ensures forall va: nat :: PagemapEnd(pm, n) <= va < pm[n].vaddr ==> !HasPage(pm, va)
    ensures forall va: nat :: pm[n].Covers(va) ==> HasPage(pm, va)
  {
    forall va: nat, k | PagemapEnd(pm, n) <= va < pm[n].vaddr && 0 <= k < |pm|
      ensures !pm[k].Covers(va)
    {
      assert n < k ==> pm[n].End() <= pm[k].vaddr;
      assert k < n - 1 ==> pm[k].End() <= pm[n - 1].vaddr;
    }
  }

  // The pages of the current entry, one by one.
  method RestoreEntry(pr: PageRead, areas: seq<Area>, from: nat, ghost was: Memory, mem0: Memory)
    returns (ret: int, v: nat, mem: Memory)
    requires AreasOk(areas) && from < |areas|
    requires pr.Valid() && WellFormed(pr.Snap()) && pr.pe.Some? && pr.cvaddr == pr.pe.value.vaddr
    requires forall i :: 0 <= i < from ==> areas[i].end <= pr.cvaddr
    requires pr.Behind(pr.cvaddr) && RestoredBelow(areas, pr.Snap(), pr.cvaddr, was, mem0)
    modifies pr.Repr`next, pr.Repr`pe, pr.Repr`cvaddr, pr.Repr`off
    ensures ret == 0 || ret == -1
    ensures ret == -1 ==> exists va: nat :: HasPage(pr.pagemap, va) && !HasHome(areas, va)
    ensures ret == 0 ==>
              && pr.Valid() && pr.next == old(pr.next) && pr.pe == old(pr.pe) && pr.cvaddr == pr.pe.value.End()
              && v < |areas| && (forall i :: 0 <= i < v ==> areas[i].end <= pr.cvaddr)
              && pr.Behind(pr.cvaddr) && RestoredBelow(areas, pr.Snap(), pr.cvaddr, was, mem)
  {
    hide WellFormed, Lookup, RestoredBelow, HasPage, HasHome, AreasOk, OwnBefore, Sorted;
    v, mem := from, mem0;
    ghost var n := pr.next - 1;
    EntriesInOrder(pr.pagemap, n);
    var va, nrPages, i := pr.pe.value.vaddr, pr.pe.value.nrPages, 0;
    while i < nrPages
      invariant 0 <= i <= nrPages && va == pr.pagemap[n].vaddr + i
      invariant pr.Valid() && pr.next == n + 1 && pr.pe == old(pr.pe) && pr.cvaddr == va && pr.Behind(va)
      invariant v < |areas| && forall k :: 0 <= k < v ==> areas[k].end <= va
      invariant RestoredBelow(areas, pr.Snap(), va, was, mem)
    {
      ret, v := FindArea(areas, v, va);
      if ret != 0 {
        return -1, v, mem;
      }
      var page;
      ret, page := pr.ReadPage(va);
      if ret < 0 {
        return -1, v, mem;
      }
      PutStep(areas, pr.Snap(), was, mem, v, va, page);
      mem := WithPage(mem, areas[v].Place(va), page);
      va := va + 1;
      i := i + 1;
    }
    return 0, v, mem;
  }

  // Where the restore stands between two entries: all below an address is back, and no cursor of the parents,
  // nor the one over the areas, is past it.
  ghost predicate Standing(parent: PageRead?, s: Snapshot, areas: seq<Area>, v: nat, done: nat,
                           was: Memory, mem: Memory)
    requires parent != null ==> parent.Shape()
    reads if parent == null then {} else parent.Repr
  {
    && v < |areas| && (forall k :: 0 <= k < v ==> areas[k].end <= done)
    && RestoredBelow(areas, s, done, was, mem)
    && (parent != null ==> parent.Behind(done))
  }

  // From the end of one entry to the beginning of the next.
  lemma {:induction false} ToEntry(pr: PageRead, areas: seq<Area>, v: nat, done: nat, was: Memory, mem: Memory)
    requires AreasOk(areas) && pr.Valid() && pr.pe.Some? && pr.cvaddr == pr.pe.value.vaddr
    requires done == PagemapEnd(pr.pagemap, pr.next - 1) && Standing(pr.parent, pr.Snap(), areas, v, done, was, mem)
    ensures v < |areas| && (forall i :: 0 <= i < v ==> areas[i].end <= pr.cvaddr)
    ensures pr.Behind(pr.cvaddr) && RestoredBelow(areas, pr.Snap(), pr.cvaddr, was, mem)
  {
    hide RestoredBelow, HasHome, HasPage, AreasOk, OwnBefore, Sorted;
    EntriesInOrder(pr.pagemap, pr.next - 1);
    PutNothing(areas, pr.Snap(), was, mem, done, pr.cvaddr);
    if pr.parent != null {
      pr.parent.BehindLater(done, pr.cvaddr);
    }
  }

  lemma {:induction false} FromEntry(pr: PageRead, areas: seq<Area>, v: nat, was: Memory, mem: Memory)
    requires pr.Valid() && v < |areas| && forall i :: 0 <= i < v ==> areas[i].end <= pr.cvaddr
    requires pr.Behind(pr.cvaddr) && RestoredBelow(areas, pr.Snap(), pr.cvaddr, was, mem)
    ensures Standing(pr.parent, pr.Snap(), areas, v, pr.cvaddr, was, mem)
  {
  }

  lemma {:induction false} AtStart(pr: PageRead, areas: seq<Area>, was: Memory)
    requires AreasOk(areas) && pr.Valid() && pr.Behind(0)
    ensures Standing(pr.parent, pr.Snap(), areas, 0, 0, was, was)
  {
    hide RestoredBelow;
    NothingPut(areas, pr.Snap(), was);
  }

  // The state between two entries: the next one is current (1), or there is none (0).
  ghost predicate Between(pr: PageRead, ret: int, areas: seq<Area>, v: nat, was: Memory, mem: Memory)
    reads pr, pr.Repr
  {
    && pr.Valid() && (ret == 0 || ret == 1)
    && (ret == 1 ==> pr.pe.Some? && pr.cvaddr == pr.pe.value.vaddr)
    && (ret == 0 ==> pr.next == |pr.pagemap|)
    && var done := PagemapEnd(pr.pagemap, if ret == 1 then pr.next - 1 else pr.next);
       Standing(pr.parent, pr.Snap(), areas, v, done, was, mem)
  }

  // On to the next entry, after one is done or at the start.
  method NextEntry(pr: PageRead, ghost areas: seq<Area>, ghost v: nat, ghost was: Memory, ghost mem: Memory)
    returns (ret: int)
    requires pr.Valid() && pr.NoOrphans() && pr.AtEnd()
    requires Standing(pr.parent, pr.Snap(), areas, v, PagemapEnd(pr.pagemap, pr.next), was, mem)
    modifies pr`next, pr`pe, pr`cvaddr
    ensures Between(pr, ret, areas, v, was, mem)
    ensures pr.next == if ret == 1 then old(pr.next) + 1 else old(pr.next)
  {
    hide RestoredBelow, OwnBefore, Sorted, Standing;
    ret := pr.GetPagemap();
  }

  // One entry, and on to the next.
  method RestoreAndGoOn(pr: PageRead, areas: seq<Area>, from: nat, ghost was: Memory, mem0: Memory)
    returns (ret: int, v: nat, mem: Memory)
    requires AreasOk(areas) && Between(pr, 1, areas, from, was, mem0) && WellFormed(pr.Snap())
    modifies pr.Repr`next, pr.Repr`pe, pr.Repr`cvaddr, pr.Repr`off
    ensures ret == -1 ==> exists va: nat :: HasPage(pr.pagemap, va) && !HasHome(areas, va)
    ensures ret != -1 ==> Between(pr, ret, areas, v, was, mem)
    ensures ret != -1 ==> pr.next == if ret == 1 then old(pr.next) + 1 else old(pr.next)
  {
    hide WellFormed, RestoredBelow, HasHome, HasPage, AreasOk, OwnBefore, Sorted, Standing;
    Orphans(pr);
    ToEntry(pr, areas, from, PagemapEnd(pr.pagemap, pr.next - 1), was, mem0);
    ret, v, mem := RestoreEntry(pr, areas, from, was, mem0);
    if ret != 0 {
      return -1, v, mem;
    }
    FromEntry(pr, areas, v, was, mem);
    ret := NextEntry(pr, areas, v, was, mem);
  }

  /** Restores the content of a task's private areas from a chain of snapshots. It succeeds exactly when every
      page of the newest pagemap lies in a private area, and then each of these pages holds what the chain
      says, and nothing else was changed. */
  method RestoreContent(pr: PageRead, areas: seq<Area>, was: Memory) returns (ret: int, mem: Memory)
    requires AreasOk(areas)
    requires pr.Valid() && WellFormed(pr.Snap()) && pr.pe.None? && pr.Behind(0)
    modifies pr.Repr`next, pr.Repr`pe, pr.Repr`cvaddr, pr.Repr`off
    ensures ret == 0 || ret == -1
    ensures ret == 0 <==> forall va: nat :: HasPage(pr.pagemap, va) ==> HasHome(areas, va)
    ensures ret == 0 ==> RestoredBelow(areas, pr.Snap(), PagemapEnd(pr.pagemap, |pr.pagemap|), was, mem)
  {
    hide WellFormed, RestoredBelow, HasHome, HasPage, AreasOk, Standing, Between;
    mem := was;
    var v: nat := 0;
    Orphans(pr);
    AtStart(pr, areas, was);
    ret := NextEntry(pr, areas, v, was, mem);
    EntryBounds(pr, ret, areas, v, was, mem);
    while ret > 0
      invariant Between(pr, ret, areas, v, was, mem) && (ret == 0 || ret == 1) && pr.next <= |pr.pagemap|
      decreases |pr.pagemap| - pr.next, ret
    {
      ret, v, mem := RestoreAndGoOn(pr, areas, v, was, mem);
      if ret == -1 {
        return;
      }
      EntryBounds(pr, ret, areas, v, was, mem);
    }
    StandsAt(pr, areas, v, was, mem);
    AllPlaced(areas, pr.Snap(), was, mem);
  }

  lemma EntryBounds(pr: PageRead, ret: int, areas: seq<Area>, v: nat, was: Memory, mem: Memory)
    requires Between(pr, ret, areas, v, was, mem)
    ensures (ret == 0 || ret == 1) && pr.next <= |pr.pagemap|
  {
  }

  lemma {:induction false} StandsAt(pr: PageRead, areas: seq<Area>, v: nat, was: Memory, mem: Memory)
    requires Between(pr, 0, areas, v, was, mem)
    ensures pr.Valid() && Sorted(pr.pagemap)
    ensures RestoredBelow(areas, pr.Snap(), PagemapEnd(pr.pagemap, |pr.pagemap|), was, mem)
  {
  }

  lemma {:induction false} Orphans(pr: PageRead)
    requires pr.Valid() && WellFormed(pr.Snap())
    ensures pr.NoOrphans()
  {
    assert WellFormedImage(pr.Snap());
  }

  lemma NothingPut(areas: seq<Area>, s: Snapshot, was: Memory)
    requires AreasOk(areas)
    ensures areas != [] && RestoredBelow(areas, s, 0, was, was)
  {
  }

  // Every page of a pagemap lies below its end.
  lemma BelowEnd(pm: seq<Entry>, va: nat)
    requires Sorted(pm) && HasPage(pm, va)
    ensures va < PagemapEnd(pm, |pm|)
  {
    var k :| 0 <= k < |pm| && pm[k].Covers(va);
    assert k < |pm| - 1 ==> pm[k].End() <= pm[|pm| - 1].vaddr;
  }

  lemma AllPlaced(areas: seq<Area>, s: Snapshot, was: Memory, mem: Memory)
    requires Sorted(s.pagemap) && RestoredBelow(areas, s, PagemapEnd(s.pagemap, |s.pagemap|), was, mem)
    ensures forall va: nat :: HasPage(s.pagemap, va) ==> HasHome(areas, va)
  {
    forall va: nat | HasPage(s.pagemap, va)
      ensures HasHome(areas, va)
    {
      BelowEnd(s.pagemap, va);
    }
  }
}
