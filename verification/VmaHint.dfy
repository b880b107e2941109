/** Finding room for the restorer between the areas of two address spaces (restorer_get_vma_hint in cr-restore.c). */
module VmaHint {

  const PAGE_SIZE := 4096
  const TASK_SIZE := 0x8000_0000_0000 - PAGE_SIZE

  // The lowest address that may be used.
  const MIN_ADDR := PAGE_SIZE * 0x10

  datatype Vma = Vma(start: nat, end: nat)

  // Areas in ascending order, which do not overlap.
  ghost predicate Sorted(vmas: seq<Vma>) {
    && (forall k :: 0 <= k < |vmas| ==> vmas[k].start <= vmas[k].end)
    && (forall j, k :: 0 <= j < k < |vmas| ==> vmas[j].end <= vmas[k].start)
  }

  // A range keeps clear of an area.
  predicate Clear(v: Vma, addr: int, len: nat) {
    addr + len <= v.start || v.end <= addr
  }

  // A range keeps clear of the first n areas.
  ghost predicate ClearOf(vmas: seq<Vma>, n: int, addr: int, len: nat) {
    forall k :: 0 <= k < n <= |vmas| ==> Clear(vmas[k], addr, len)
  }

  // A range keeps clear of all areas but the last one.
  ghost predicate ClearOfMost(vmas: seq<Vma>, addr: int, len: nat) {
    ClearOf(vmas, |vmas| - 1, addr, len)
  }

  // Where a range has to end for one list: before the end of the address space, or before the list's last area.
  predicate Ends(vmas: seq<Vma>, addr: int, len: nat) {
    vmas != [] && (addr + len <= TASK_SIZE || addr + len <= vmas[|vmas| - 1].start)
  }

  // Room as the search sees it: all areas count but the last one of each list.
  ghost predicate Room(tgt: seq<Vma>, self: seq<Vma>, addr: int, len: nat) {
    && addr >= MIN_ADDR
    && ClearOfMost(tgt, addr, len) && ClearOfMost(self, addr, len)
    && Ends(tgt, addr, len) && Ends(self, addr, len)
  }

  // The start of the area at a cursor, which may be past all areas.
  function StartAt(vmas: seq<Vma>, k: nat): nat {
    if k < |vmas| then vmas[k].start else TASK_SIZE
  }

  // The areas behind a cursor are left behind; if all are then the range does not fit before the last one.
  ghost predicate Behind(vmas: seq<Vma>, k: nat, prev: nat, len: nat) {
    && k <= |vmas|
    && (forall j :: 0 <= j < k && j < |vmas| - 1 ==> vmas[j].end <= prev)
    && (k == |vmas| && vmas != [] ==> prev + len > vmas[|vmas| - 1].start)
  }

  // The next place to look at, from a cursor whose area is in the way; done says that there is none.
  method Skip(vmas: seq<Vma>, k: nat, prev: nat, len: nat) returns (done: bool, k': nat, prev': nat)
    requires vmas != [] && Sorted(vmas) && Behind(vmas, k, prev, len) && prev + len > StartAt(vmas, k)
    ensures prev <= prev'
    ensures done ==> k == k' == |vmas| && prev' == prev && prev + len > TASK_SIZE
    ensures !done ==> k' == k + 1 && Behind(vmas, k', prev', len)
    ensures forall addr :: addr >= prev && ClearOfMost(vmas, addr, len) ==> addr >= prev'
  {
    done, k', prev' := false, k, prev;
    if k == |vmas| - 1 {
      k' := |vmas|;
    } else if k == |vmas| {
      done := true;
    } else {
      if prev < vmas[k].end {
        prev' := vmas[k].end;
      }
      k' := k + 1;
      forall addr | addr >= prev && ClearOfMost(vmas, addr, len) ensures addr >= prev' {
        assert Clear(vmas[k], addr, len);
      }
    }
  }

  // The cursors' areas are not in the way: there is room.
  lemma Found(vmas: seq<Vma>, k: nat, prev: nat, len: nat)
    requires vmas != [] && Sorted(vmas) && Behind(vmas, k, prev, len) && prev + len <= StartAt(vmas, k)
    ensures ClearOfMost(vmas, prev, len) && Ends(vmas, prev, len)
  {
    forall j | 0 <= j < |vmas| - 1 ensures Clear(vmas[j], prev, len) {
      if k < j {
        assert vmas[k].end <= vmas[j].start;
      }
    }
    if k < |vmas| - 1 {
      assert vmas[k].end <= vmas[|vmas| - 1].start;
    }
  }

  // The lowest place with room, as the search sees it, or -1 if there is none.
  method GetVmaHint(tgt: seq<Vma>, self: seq<Vma>, len: nat) returns (hint: int)
    requires tgt != [] && self != [] && Sorted(tgt) && Sorted(self)
    ensures hint == -1 <==> forall addr :: !Room(tgt, self, addr, len)
    ensures hint != -1 ==> Room(tgt, self, hint, len) && forall addr :: Room(tgt, self, addr, len) ==> addr >= hint
  {
    hide Sorted, ClearOfMost, Behind, StartAt, Ends;
    var prev: nat, s: nat, t: nat := MIN_ADDR, 0, 0;
    Fresh(tgt, prev, len);
    Fresh(self, prev, len);
    while true
      invariant prev >= MIN_ADDR && s <= |self| && t <= |tgt|
      invariant Behind(self, s, prev, len) && Behind(tgt, t, prev, len)
      invariant forall addr :: Room(tgt, self, addr, len) ==> addr >= prev
      decreases |self| - s + |tgt| - t
    {
      ghost var was := prev;
      if prev + len > StartAt(self, s) {
        var done;
        done, s, prev := Skip(self, s, prev, len);
        if done {
          NoRoom(self, was, len);
          break;
        }
        FurtherBehind(tgt, t, was, prev, len);
        continue;
      }
      if prev + len > StartAt(tgt, t) {
        var done;
        done, t, prev := Skip(tgt, t, prev, len);
        if done {
          NoRoom(tgt, was, len);
          break;
        }
        FurtherBehind(self, s, was, prev, len);
        continue;
      }
      Found(self, s, prev, len);
      Found(tgt, t, prev, len);
      assert Room(tgt, self, prev, len);
      return prev;
    }
    hint := -1;
  }

  lemma Fresh(vmas: seq<Vma>, prev: nat, len: nat)
    requires vmas != []
    ensures Behind(vmas, 0, prev, len)
  {
  }

  lemma FurtherBehind(vmas: seq<Vma>, k: nat, prev: nat, prev': nat, len: nat)
    requires Behind(vmas, k, prev, len) && prev <= prev'
    ensures Behind(vmas, k, prev', len)
  {
  }

  lemma NoRoom(vmas: seq<Vma>, prev: nat, len: nat)
    requires vmas != [] && Behind(vmas, |vmas|, prev, len) && prev + len > TASK_SIZE
    ensures forall addr :: addr >= prev ==> !Ends(vmas, addr, len)
  {
  }

  // If the last area of each list begins at the end of the address space or above, as the vsyscall area does,
  // then the place found keeps clear of all areas and none below it does,
  // and where none is found none fits into the address space.
  method HintIsLeastGap(tgt: seq<Vma>, self: seq<Vma>, len: nat) returns (hint: int)
    requires tgt != [] && self != [] && Sorted(tgt) && Sorted(self)
    requires tgt[|tgt| - 1].start >= TASK_SIZE && self[|self| - 1].start >= TASK_SIZE
    ensures hint != -1 ==> hint >= MIN_ADDR && ClearOf(tgt, |tgt|, hint, len) && ClearOf(self, |self|, hint, len)
    ensures hint != -1 ==>
      forall addr :: MIN_ADDR <= addr && ClearOf(tgt, |tgt|, addr, len) && ClearOf(self, |self|, addr, len) ==>
        addr >= hint
    ensures hint == -1 ==>
      forall addr :: MIN_ADDR <= addr && addr + len <= TASK_SIZE ==>
        !(ClearOf(tgt, |tgt|, addr, len) && ClearOf(self, |self|, addr, len))
  {
    hint := GetVmaHint(tgt, self, len);
    forall addr | MIN_ADDR <= addr && ClearOf(tgt, |tgt|, addr, len) && ClearOf(self, |self|, addr, len)
      ensures addr + len <= TASK_SIZE ==> Room(tgt, self, addr, len)
      ensures hint != -1 ==> addr >= hint
    {
      AllButLast(tgt, addr, len);
      AllButLast(self, addr, len);
      assert addr < hint ==> Room(tgt, self, addr, len);
    }
    if hint != -1 {
      LastToo(tgt, hint, len);
      LastToo(self, hint, len);
    }
  }

  lemma AllButLast(vmas: seq<Vma>, addr: int, len: nat)
    requires vmas != [] && ClearOf(vmas, |vmas|, addr, len)
    ensures ClearOfMost(vmas, addr, len)
  {
    forall k | 0 <= k < |vmas| - 1 ensures Clear(vmas[k], addr, len) {
    }
  }

  lemma LastToo(vmas: seq<Vma>, addr: int, len: nat)
    requires vmas != [] && ClearOfMost(vmas, addr, len) && Ends(vmas, addr, len)
    requires vmas[|vmas| - 1].start >= TASK_SIZE
    ensures ClearOf(vmas, |vmas|, addr, len)
  {
  }

  // What the search is to find: a place clear of all areas of both lists.
  ghost predicate Gap(tgt: seq<Vma>, self: seq<Vma>, addr: int, len: nat) {
    && addr >= MIN_ADDR
    && ClearOf(tgt, |tgt|, addr, len) && ClearOf(self, |self|, addr, len)
    && Ends(tgt, addr, len) && Ends(self, addr, len)
  }

  // What the search answers, and what it should answer.

  ghost predicate IsHint(tgt: seq<Vma>, self: seq<Vma>, len: nat, hint: int) {
    if hint == -1 then forall addr :: !Room(tgt, self, addr, len)
    else Room(tgt, self, hint, len) && forall addr :: Room(tgt, self, addr, len) ==> addr >= hint
  }

  ghost predicate IsLeastGap(tgt: seq<Vma>, self: seq<Vma>, len: nat, hint: int) {
    if hint == -1 then forall addr :: !Gap(tgt, self, addr, len)
    else Gap(tgt, self, hint, len) && forall addr :: Gap(tgt, self, addr, len) ==> addr >= hint
  }

  lemma GapIsRoom(tgt: seq<Vma>, self: seq<Vma>, addr: int, len: nat)
    requires Gap(tgt, self, addr, len)
    ensures Room(tgt, self, addr, len)
  {
    AllButLast(tgt, addr, len);
    AllButLast(self, addr, len);
  }

  // The places the search can come to: the lowest address, and the ends of the areas it sees.

  function EndsOf(vmas: seq<Vma>, n: nat): seq<nat>
    requires n <= |vmas|
  {
    if n == 0 then [] else EndsOf(vmas, n - 1) + [vmas[n - 1].end]
  }

  function Places(tgt: seq<Vma>, self: seq<Vma>): seq<nat>
    requires tgt != [] && self != []
  {
    [MIN_ADDR] + EndsOf(tgt, |tgt| - 1) + EndsOf(self, |self| - 1)
  }

  lemma {:induction false} EndIn(vmas: seq<Vma>, n: nat, k: nat)
    requires k < n <= |vmas|
    ensures vmas[k].end in EndsOf(vmas, n)
  {
    if k < n - 1 {
      EndIn(vmas, n - 1, k);
    }
  }

  // A range that is not clear any more one address further down is at the end of an area.
  lemma {:induction false} StopsAtEnd(vmas: seq<Vma>, addr: int, len: nat)
    requires vmas != [] && ClearOfMost(vmas, addr, len) && !ClearOfMost(vmas, addr - 1, len) && addr >= 0
    ensures addr in EndsOf(vmas, |vmas| - 1)
  {
    var k :| 0 <= k < |vmas| - 1 && !Clear(vmas[k], addr - 1, len);
    assert Clear(vmas[k], addr, len);
    EndIn(vmas, |vmas| - 1, k);
  }

  // The place that is found is one of them.
  lemma HintIsPlace(tgt: seq<Vma>, self: seq<Vma>, len: nat, hint: int)
    requires tgt != [] && self != [] && IsHint(tgt, self, len, hint) && hint != -1
    ensures hint in Places(tgt, self)
  {
    hide ClearOfMost, EndsOf;
    if hint != MIN_ADDR {
      assert !Room(tgt, self, hint - 1, len);
      if !ClearOfMost(tgt, hint - 1, len) {
        StopsAtEnd(tgt, hint, len);
      } else {
        StopsAtEnd(self, hint, len);
      }
    }
  }

  /** The last areas are not seen, so the answer is right, the least place clear of all areas, if and only if
      none of the finitely many places of the search has room as the search sees it without being clear of
      all areas, unless one that is clear lies below it. */
  lemma RightByPlaces(tgt: seq<Vma>, self: seq<Vma>, len: nat, hint: int)
    requires tgt != [] && self != [] && IsHint(tgt, self, len, hint)
    ensures IsLeastGap(tgt, self, len, hint) <==>
      forall p :: p in Places(tgt, self) && Room(tgt, self, p, len) && !Gap(tgt, self, p, len) ==>
        exists q :: q in Places(tgt, self) && q < p && Gap(tgt, self, q, len)
  {
    hide Room, Gap, Places;
    forall addr | Gap(tgt, self, addr, len) ensures Room(tgt, self, addr, len) {
      GapIsRoom(tgt, self, addr, len);
    }
    if hint != -1 {
      HintIsPlace(tgt, self, len, hint);
    }
  }

  // A list with a marker behind its last area.
  function Closed(vmas: seq<Vma>): seq<Vma>
    requires vmas != []
  {
    var end := vmas[|vmas| - 1].end;
    var at := if end < TASK_SIZE then TASK_SIZE else end;
    vmas + [Vma(at, at)]
  }

  lemma ClosedSorted(vmas: seq<Vma>)
    requires vmas != [] && Sorted(vmas)
    ensures Closed(vmas) != [] && Sorted(Closed(vmas))
  {
    var n := |vmas| - 1;
    forall k | 0 <= k < |vmas| ensures vmas[k].end <= vmas[n].end {
      assert k < n ==> vmas[k].end <= vmas[n].start;
    }
  }

  // With the marker in its place the search sees all areas.
  lemma ClosedRoom(tgt: seq<Vma>, self: seq<Vma>, addr: int, len: nat)
    requires tgt != [] && self != [] && Sorted(tgt) && Sorted(self) && len > 0
    ensures Room(Closed(tgt), Closed(self), addr, len) <==> Gap(tgt, self, addr, len)
  {
    hide Sorted;
    ClosedClear(tgt, addr, len);
    ClosedClear(self, addr, len);
  }

  lemma ClosedClear(vmas: seq<Vma>, addr: int, len: nat)
    requires vmas != [] && Sorted(vmas) && len > 0
    ensures ClearOfMost(Closed(vmas), addr, len) <==> ClearOf(vmas, |vmas|, addr, len)
    ensures ClearOf(vmas, |vmas|, addr, len) ==> (Ends(Closed(vmas), addr, len) <==> Ends(vmas, addr, len))
  {
    var c := Closed(vmas);
    forall k | 0 <= k < |vmas| ensures c[k] == vmas[k] {
    }
    assert ClearOf(vmas, |vmas|, addr, len) ==> Clear(vmas[|vmas| - 1], addr, len);
    if ClearOfMost(c, addr, len) {
      forall k | 0 <= k < |vmas| ensures Clear(vmas[k], addr, len) {
        assert Clear(c[k], addr, len);
      }
    }
  }

  /** The program's search next to the same search with a marker behind each list. The second always finds the least
      place clear of all areas, or none if there is none; the first is right if and only if it finds the same. */
  method HintAndGap(tgt: seq<Vma>, self: seq<Vma>, len: nat) returns (hint: int, gap: int)
    requires tgt != [] && self != [] && Sorted(tgt) && Sorted(self) && len > 0
    ensures IsHint(tgt, self, len, hint) && IsLeastGap(tgt, self, len, gap)
    ensures IsLeastGap(tgt, self, len, hint) <==> hint == gap
  {
    hide Room, Gap, Sorted, Closed;
    ClosedSorted(tgt);
    ClosedSorted(self);
    hint := GetVmaHint(tgt, self, len);
    gap := GetVmaHint(Closed(tgt), Closed(self), len);
    forall addr ensures Room(Closed(tgt), Closed(self), addr, len) <==> Gap(tgt, self, addr, len) {
      ClosedRoom(tgt, self, addr, len);
    }
  }

  // The area every task has behind all others.
  const VSYSCALL := Vma(0xffff_ffff_ff60_0000, 0xffff_ffff_ff60_1000)

  // So the place that is found may overlap a last area, where that is not the usual one.
  method LastAreaIsNotSeen() returns (hint: int)
    ensures TASK_SIZE == 0x7fff_ffff_f000 && hint == 0x1_0000 && !Clear(Vma(0x1_0000, 0x1_1000), hint, 0x1000)
  {
    var tgt, self := [VSYSCALL], [Vma(MIN_ADDR, MIN_ADDR + PAGE_SIZE)];
    hint := GetVmaHint(tgt, self, PAGE_SIZE);
    assert Room(tgt, self, MIN_ADDR, PAGE_SIZE);
  }
}
