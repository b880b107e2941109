/** Finding places for the private areas of a task before its pages are read (cr-restore.c). */
module Premap {
  import opened Options
  import opened PageImages
  import opened Areas
  import opened Restore
  import opened Restorer

  const TWO_31: nat := 0x8000_0000

  // An area that grows down has a guard page below it, which is mapped as well.
  function GuardPages(e: Vma): nat {
    if e.growsDown then 1 else 0
  }

  function MapPages(e: Vma): (n: nat)
    requires e.start <= e.end
  {
    e.end - e.start + GuardPages(e)
  }

  // A size in bytes, returned as an int.
  function AsInt(n: nat): int {
    if n % TWO_32 < TWO_31 then n % TWO_32 else n % TWO_32 - TWO_32
  }

  // How far the mapping of an area moves on, in pages.
  function Advance(e: Vma): int
    requires e.start <= e.end
  {
    if e.Private() then AsInt(MapPages(e) * PAGE_SIZE) / PAGE_SIZE else 0
  }

  ghost predicate Proper(vmas: seq<Vma>) {
    forall i :: 0 <= i < |vmas| ==> vmas[i].start <= vmas[i].end
  }

  // Where the next area is mapped after n of them.
  function PlaceAt(vmas: seq<Vma>, n: nat, base: int): int
    requires n <= |vmas| && Proper(vmas)
  {
    if n == 0 then base else PlaceAt(vmas, n - 1, base) + Advance(vmas[n - 1])
  }

  // An area at the place it is mapped at; the others are not mapped.
  function Mapped(e: Vma, addr: nat): Area {
    Area(e.start, e.end, e.Private(), if e.Private() then addr + GuardPages(e) else 0)
  }

  // The areas as they are mapped.
  ghost predicate AllMapped(vmas: seq<Vma>, base: nat, areas: seq<Area>)
    requires Proper(vmas) && |areas| <= |vmas|
  {
    forall i :: 0 <= i < |areas| ==>
      PlaceAt(vmas, i, base) >= 0 && areas[i] == Mapped(vmas[i], PlaceAt(vmas, i, base))
  }

  ghost predicate StartsAscend(vmas: seq<Vma>, n: nat) {
    forall i, j :: 0 <= i < j < n && j < |vmas| ==> vmas[i].start <= vmas[j].start
  }

  // No size is taken for an error.
  ghost predicate SizesReturned(vmas: seq<Vma>, n: nat)
    requires Proper(vmas)
  {
    forall i :: 0 <= i < n && i < |vmas| ==> Advance(vmas[i]) >= 0
  }

  // Every private area but the last of them is smaller than two gigabytes.
  ghost predicate SmallAreas(vmas: seq<Vma>)
    requires Proper(vmas)
  {
    forall i, j :: 0 <= i < j < |vmas| && vmas[i].Private() && vmas[j].Private() ==>
      MapPages(vmas[i]) * PAGE_SIZE < TWO_31
  }

  lemma AsIntIs(e: Vma)
    requires e.start <= e.end && e.Private()
    ensures Advance(e) == AsInt(MapPages(e) * PAGE_SIZE) / PAGE_SIZE
    ensures AsInt(MapPages(e) * PAGE_SIZE) >= 0 <==> Advance(e) >= 0
    ensures MapPages(e) * PAGE_SIZE < TWO_31 ==> Advance(e) == MapPages(e)
    ensures MapPages(e) * PAGE_SIZE >= TWO_31 && Advance(e) >= 0 ==> Advance(e) + 1 < MapPages(e)
  {
  }

  lemma {:induction false} PlacesRise(vmas: seq<Vma>, i: nat, j: nat, base: int)
    requires Proper(vmas) && i <= j <= |vmas| && SizesReturned(vmas, |vmas|)
    ensures PlaceAt(vmas, i, base) <= PlaceAt(vmas, j, base)
    decreases j
  {
    if i < j {
      PlacesRise(vmas, i, j - 1, base);
    }
  }

  // The next private area after one is mapped where that one moved on to.
  lemma {:induction false} NextPrivate(vmas: seq<Vma>, i: nat, j: nat, base: int) returns (k: nat)
    requires Proper(vmas) && i < j < |vmas| && vmas[j].Private()
    ensures i < k <= j && vmas[k].Private() && PlaceAt(vmas, k, base) == PlaceAt(vmas, i + 1, base)
    decreases j - i
  {
    if vmas[i + 1].Private() {
      k := i + 1;
    } else {
      k := NextPrivate(vmas, i + 1, j, base);
    }
  }

  /** The places are apart exactly if every private area but the last is smaller than two gigabytes. */
  lemma PlacesApartExactly(vmas: seq<Vma>, base: nat, areas: seq<Area>)
    requires Proper(vmas) && SizesReturned(vmas, |vmas|) && |areas| == |vmas| && AllMapped(vmas, base, areas)
    ensures PlacesApart(areas) <==> SmallAreas(vmas)
  {
    hide Advance, PlaceAt;
    if SmallAreas(vmas) {
      forall i, j | 0 <= i < j < |areas| && areas[i].priv && areas[j].priv
        ensures areas[i].premapped + (areas[i].end - areas[i].start) <= areas[j].premapped
      {
        AsIntIs(vmas[i]);
        OnePlace(vmas, i, base);
        PlacesRise(vmas, i + 1, j, base);
      }
    } else {
      var i, j :| 0 <= i < j < |vmas| && vmas[i].Private() && vmas[j].Private()
        && MapPages(vmas[i]) * PAGE_SIZE >= TWO_31;
      var k := NextPrivate(vmas, i, j, base);
      AsIntIs(vmas[i]);
      OnePlace(vmas, i, base);
      assert areas[i].priv && areas[k].priv;
      assert areas[i].premapped + (areas[i].end - areas[i].start) > areas[k].premapped;
    }
  }

  lemma {:induction false} FirstPlace(vmas: seq<Vma>, base: int)
    requires Proper(vmas)
    ensures PlaceAt(vmas, 0, base) == base
  {
  }

  lemma OnePlace(vmas: seq<Vma>, i: nat, base: int)
    requires Proper(vmas) && i < |vmas|
    ensures PlaceAt(vmas, i + 1, base) == PlaceAt(vmas, i, base) + Advance(vmas[i])
    ensures !vmas[i].Private() ==> Advance(vmas[i]) == 0
  {
  }

  // A private area is mapped: behind its guard page every page is as if it was never written.
  function WithArea(m: Memory, e: Vma, addr: nat, files: nat -> Page): Memory
    requires e.start <= e.end
  {
    (x: nat) =>
      if !(addr <= x < addr + MapPages(e)) then m(x)
      else if x < addr + GuardPages(e) then Some(ZeroPage())
      else Some(e.Fresh(files, e.start + (x - addr - GuardPages(e))))
  }

  // The memory after the first n areas.
  ghost function MapAll(vmas: seq<Vma>, n: nat, base: nat, files: nat -> Page, m0: Memory): Memory
    requires Proper(vmas) && n <= |vmas|
  {
    if n == 0 then m0
    else
      var before := MapAll(vmas, n - 1, base, files, m0);
      var addr := PlaceAt(vmas, n - 1, base);
      if vmas[n - 1].Private() && addr >= 0 then WithArea(before, vmas[n - 1], addr, files) else before
  }

  /** Maps the private areas one by one. It succeeds exactly if the areas start in order and no size is taken for
      an error, unless a call fails; and then the places are apart exactly if every private area but the last is
      smaller than two gigabytes. */
  method PrepareMappings(vmas: seq<Vma>, base: nat, files: nat -> Page, m0: Memory, flaky: bool)
    returns (ret: int, areas: seq<Area>, m: Memory)
    requires Proper(vmas)
    ensures ret == 0 || ret == -1
    ensures ret == 0 ==> StartsAscend(vmas, |vmas|) && SizesReturned(vmas, |vmas|)
    ensures ret == -1 ==> flaky || !StartsAscend(vmas, |vmas|) || !SizesReturned(vmas, |vmas|)
    ensures ret == 0 ==> |areas| == |vmas| && AllMapped(vmas, base, areas)
    ensures ret == 0 ==> (PlacesApart(areas) <==> SmallAreas(vmas))
    ensures ret == 0 ==> m == MapAll(vmas, |vmas|, base, files, m0)
  {
    hide PlacesApart, SmallAreas, PlaceAt, Advance, WithArea;
    areas, m := [], m0;
    var addr, pstart, n := base, 0, 0;
    FirstPlace(vmas, base);
    while n < |vmas|
      invariant 0 <= n <= |vmas| && |areas| == n
      invariant pstart == if n == 0 then 0 else vmas[n - 1].start
      invariant StartsAscend(vmas, n) && SizesReturned(vmas, n)
      invariant addr == PlaceAt(vmas, n, base) >= 0 && AllMapped(vmas, base, areas)
      invariant m == MapAll(vmas, n, base, files, m0)
    {
      var vma := vmas[n];
      if pstart > vma.start {
        return -1, areas, m;
      }
      pstart := vma.start;
      areas := areas + [Mapped(vma, addr)];
      OnePlace(vmas, n, base);
      n := n + 1;
      if !vma.Private() {
        continue;
      }
      var done: bool := *;
      if flaky && !done {
        return -1, areas, m;
      }
      m := WithArea(m, vma, addr, files);
      ret := AsInt(MapPages(vma) * PAGE_SIZE);
      AsIntIs(vma);
      if ret < 0 {
        return -1, areas, m;
      }
      addr := addr + ret / PAGE_SIZE;
    }
    PlacesApartExactly(vmas, base, areas);
    return 0, areas, m;
  }

  // An area of four gigabytes does not move on at all, and the next one is mapped in its place.
  method FourGigabytes(start: nat, base: nat, files: nat -> Page) returns (ret: int, areas: seq<Area>)
    ensures ret == 0 && |areas| == 2 && areas[0].priv && areas[1].priv
    ensures areas[0].Holds(start) && areas[1].Holds(start + 0x10_0000)
    ensures areas[0].start <= start && areas[0].Place(start) == areas[1].Place(start + 0x10_0000)
  {
    var first := Vma(start, start + 0x10_0000, AnonPrivate, false, false);
    var vmas := [first, Vma(start + 0x10_0000, start + 0x10_0001, AnonPrivate, false, false)];
    assert Advance(first) == 0 && Advance(vmas[1]) == 1;
    var m;
    ret, areas, m := PrepareMappings(vmas, base, files, _ => None, false);
    OnePlace(vmas, 0, base);
  }

  // The size of one of two gigabytes is taken for an error.
  method TwoGigabytes(start: nat, base: nat, files: nat -> Page) returns (ret: int)
    ensures ret == -1
  {
    var vmas := [Vma(start, start + 0x8_0000, AnonPrivate, false, false)];
    assert Advance(vmas[0]) < 0;
    var areas, m;
    ret, areas, m := PrepareMappings(vmas, base, files, _ => None, false);
  }
}
