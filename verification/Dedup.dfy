/** Punching pages out of a parent snapshot that the child stores itself (cr-dedup.c). */
module Dedup {
  import opened Options
  import opened PageImages
  import opened PageReader

  // A file after a hole was punched: the size is kept, the hole reads as zeroes.
  function Punched(pages: seq<Page>, at: nat, len: nat): (r: seq<Page>)
    ensures |r| == |pages|
  {
    seq(|pages|, i requires 0 <= i < |pages| => if at <= i < at + len then ZeroPage() else pages[i])
  }

  // fallocate() on the pages image: it may fail if calls may, and it refuses an empty range.
  method PunchHole(pr: PageRead, at: nat, len: nat, flaky: bool) returns (ret: int)
    modifies pr`pages
    ensures ret == 0 || flaky || len == 0
    ensures ret == 0 ==> len > 0 && pr.pages == Punched(old(pr.pages), at, len)
    ensures ret != 0 ==> pr.pages == old(pr.pages)
  {
    var failed: bool := *;
    if (flaky && failed) || len == 0 {
      return -1;
    }
    pr.pages := Punched(pr.pages, at, len);
    return 0;
  }

  /** An image is an older one with exactly the pages it stores in an address range zeroed. */
  ghost predicate PunchedRange(pm: seq<Entry>, was: seq<Page>, now: seq<Page>, lo: nat, hi: nat) {
    && |now| == |was|
    && forall va: nat ::
         OwnContent(pm, now, va)
         == if lo <= va < hi && OwnContent(pm, was, va).Some? then Some(ZeroPage()) else OwnContent(pm, was, va)
  }

  // The pagemap has nothing between an address and a cursor that is beyond it.
  ghost predicate ClearUpTo(pr: PageRead, from: nat)
    reads pr
  {
    forall va: nat :: from <= va && pr.pe.Some? && va < pr.cvaddr ==> !HasPage(pr.pagemap, va)
  }

  // The place of an address in the pages image tells on which side of another entry it lies.
  lemma OwnIndexOrder(pm: seq<Entry>, j: nat, k: nat, va: nat)
    requires j < |pm| && k < |pm| && j != k && pm[j].Covers(va) && !pm[j].inParent
    ensures var i := OwnBefore(pm, j) + (va - pm[j].vaddr); i < OwnBefore(pm, k) || OwnBefore(pm, k + 1) <= i
  {
    if j < k {
      OwnBeforeMonotone(pm, j + 1, k);
    } else {
      OwnBeforeMonotone(pm, k + 1, j);
    }
  }

  // Punching from the cursor, inside its entry, zeroes exactly the addresses that follow the cursor.
  lemma {:induction false} PunchEffect(pm: seq<Entry>, pages: seq<Page>, k: nat, from: nat, len: nat, va: nat)
    requires Sorted(pm) && |pages| == OwnBefore(pm, |pm|)
    requires k < |pm| && !pm[k].inParent && pm[k].vaddr <= from && from + len <= pm[k].End()
    ensures OwnContent(pm, Punched(pages, OwnBefore(pm, k) + (from - pm[k].vaddr), len), va)
            == if from <= va < from + len then Some(ZeroPage()) else OwnContent(pm, pages, va)
  {
    if pm[k].Covers(va) {
      EntryAtUnique(pm, k, va);
      InsidePunch(pm, pages, k, from, len, va);
    } else {
      OutsidePunch(pm, pages, k, from, len, va);
    }
  }

  lemma {:induction false} InsidePunch(pm: seq<Entry>, pages: seq<Page>, k: nat, from: nat, len: nat, va: nat)
    requires |pages| == OwnBefore(pm, |pm|)
    requires k < |pm| && !pm[k].inParent && pm[k].vaddr <= from && from + len <= pm[k].End()
    requires EntryAt(pm, va) == Some(k)
    ensures OwnContent(pm, Punched(pages, OwnBefore(pm, k) + (from - pm[k].vaddr), len), va)
            == if from <= va < from + len then Some(ZeroPage()) else OwnContent(pm, pages, va)
  {
    OwnBeforeMonotone(pm, k + 1, |pm|);
  }

  lemma {:induction false} OutsidePunch(pm: seq<Entry>, pages: seq<Page>, k: nat, from: nat, len: nat, va: nat)
    requires k < |pm| && !pm[k].inParent && pm[k].vaddr <= from && from + len <= pm[k].End()
    requires !pm[k].Covers(va)
    ensures OwnContent(pm, Punched(pages, OwnBefore(pm, k) + (from - pm[k].vaddr), len), va)
            == OwnContent(pm, pages, va)
  {
    var r := EntryAt(pm, va);
    if r.Some? && !pm[r.value].inParent {
      OwnIndexOrder(pm, r.value, k, va);
    }
  }

  // Addresses without own pages need no punching.
  lemma ExtendOverNothing(pm: seq<Entry>, was: seq<Page>, now: seq<Page>, lo: nat, mid: nat, hi: nat)
    requires PunchedRange(pm, was, now, lo, mid) && mid <= hi
    requires forall va: nat :: mid <= va < hi ==> !HasOwnPage(pm, va) || !HasPage(pm, va)
    ensures PunchedRange(pm, was, now, lo, hi)
  {
    forall va: nat | mid <= va < hi
      ensures OwnContent(pm, was, va).None?
    {
      assert !HasOwnPage(pm, va) || !HasPage(pm, va);
    }
  }

  // A punched hole extends the range.
  lemma {:induction false} ExtendByPunch(pm: seq<Entry>, was: seq<Page>, now: seq<Page>, k: nat, lo: nat, mid: nat,
                                         len: nat)
    requires PunchedRange(pm, was, now, lo, mid) && lo <= mid
    requires Sorted(pm) && |now| == OwnBefore(pm, |pm|)
    requires k < |pm| && !pm[k].inParent && pm[k].vaddr <= mid && mid + len <= pm[k].End()
    ensures PunchedRange(pm, was, Punched(now, OwnBefore(pm, k) + (mid - pm[k].vaddr), len), lo, mid + len)
  {
    var after := Punched(now, OwnBefore(pm, k) + (mid - pm[k].vaddr), len);
    forall va: nat
      ensures OwnContent(pm, after, va)
              == if lo <= va < mid + len && OwnContent(pm, was, va).Some? then Some(ZeroPage())
                 else OwnContent(pm, was, va)
    {
      PunchEffect(pm, now, k, mid, len, va);
      if mid <= va < mid + len {
        PunchEffect(pm, was, k, mid, len, va);
        EntryAtUnique(pm, k, va);
      }
    }
  }

  // An entry left to the parent stores nothing.
  lemma NothingInParent(pm: seq<Entry>, k: nat)
    requires Sorted(pm) && k < |pm| && pm[k].inParent
    ensures forall va: nat :: pm[k].Covers(va) ==> !HasOwnPage(pm, va)
  {
    forall va: nat, j | pm[k].Covers(va) && 0 <= j < |pm| && pm[j].Covers(va)
      ensures j == k
    {
      EntryAtUnique(pm, k, va);
      EntryAtUnique(pm, j, va);
    }
  }

  // Between an entry that ends before an address and the next one there is nothing.
  lemma NothingBetween(pm: seq<Entry>, k: nat, from: nat)
    requires Sorted(pm) && k < |pm| && (0 < k ==> pm[k - 1].End() <= from)
    ensures forall va: nat :: from <= va < pm[k].vaddr ==> !HasPage(pm, va)
  {
    forall va: nat, j | from <= va < pm[k].vaddr && 0 <= j < |pm|
      ensures !pm[j].Covers(va)
    {
      assert k < j ==> pm[k].End() <= pm[j].vaddr;
      assert j < k - 1 ==> pm[j].End() <= pm[k - 1].vaddr;
    }
  }

  // Where a failed search stopped beyond an address, there is nothing from the address up to the cursor.
  lemma NothingSkipped(pr: PageRead, from: nat, first: nat, wasOn: bool, at: nat)
    requires pr.InStep() && Sorted(pr.pagemap) && pr.pe.Some? && from < pr.cvaddr
    requires first <= pr.First() && (first < pr.First() ==> pr.pagemap[pr.First() - 1].End() <= from)
    requires pr.cvaddr == if pr.First() == first && wasOn then at else pr.pe.value.vaddr
    requires !wasOn ==> first == 0
    requires wasOn ==> forall va: nat :: from <= va < at ==> !HasPage(pr.pagemap, va)
    ensures forall va: nat :: from <= va < pr.cvaddr ==> !HasPage(pr.pagemap, va)
    ensures forall from': nat :: from <= from' ==> ClearUpTo(pr, from')
  {
    if pr.First() != first || !wasOn {
      NothingBetween(pr.pagemap, pr.next - 1, from);
    }
  }

  lemma ClearMeans(pr: PageRead, from: nat)
    requires ClearUpTo(pr, from)
    ensures pr.pe.Some? ==> forall va: nat :: from <= va < pr.cvaddr ==> !HasPage(pr.pagemap, va)
  {
  }

  lemma ClearBehind(pr: PageRead, from: nat)
    requires pr.pe.Some? ==> pr.cvaddr <= from
    ensures ClearUpTo(pr, from)
  {
  }

  lemma PunchedNothing(pm: seq<Entry>, pages: seq<Page>, lo: nat)
    ensures PunchedRange(pm, pages, pages, lo, lo)
  {
  }

  // A search that finds no entry at all has an empty pagemap, or one whose first entry lacks its parent.
  lemma EmptyPagemap(pr: PageRead, off: nat, end: nat)
    requires pr.InStep() && pr.pe.None? && pr.next == |pr.pagemap|
    ensures NothingFrom(pr.pagemap, off, end) && ClearUpTo(pr, end) && !Proper(pr)
  {
  }

  // Some entry ends at an address or beyond it.
  ghost predicate Reaches(pm: seq<Entry>, end: nat) {
    exists k :: 0 <= k < |pm| && pm[k].End() >= end
  }

  // A parent whose entries are not empty and do not lack their own parent.
  ghost predicate Proper(pr: PageRead) {
    pr.pagemap != [] && pr.NoOrphans() && forall k :: 0 <= k < |pr.pagemap| ==> pr.pagemap[k].nrPages > 0
  }

  // A cursor that nothing was skipped before is inside its entry.
  lemma CursorInside(pr: PageRead, from: nat)
    requires pr.InStep() && Proper(pr) && pr.pe.Some? && from < pr.cvaddr
    requires forall va: nat :: from <= va < pr.cvaddr ==> !HasPage(pr.pagemap, va)
    ensures pr.cvaddr < pr.pe.value.End()
  {
    if pr.cvaddr == pr.pe.value.End() {
      assert pr.pagemap[pr.next - 1].Covers(pr.cvaddr - 1);
      assert HasPage(pr.pagemap, pr.cvaddr - 1);
    }
  }

  // A search that failed without going beyond the address has come to the end of the pagemap.
  lemma SearchedAll(pr: PageRead, off: nat, end: nat)
    requires pr.InStep() && Sorted(pr.pagemap) && Proper(pr) && off < end
    requires (pr.next == |pr.pagemap| && (pr.pe.Some? ==> pr.pe.value.End() <= off))
             || (pr.pe.Some? && pr.pe.value.inParent && pr.parent == null)
    ensures !Reaches(pr.pagemap, end)
  {
    var n := |pr.pagemap| - 1;
    forall k | 0 <= k < |pr.pagemap| ensures pr.pagemap[k].End() < end {
      assert k < n ==> pr.pagemap[k].End() <= pr.pagemap[n].vaddr;
    }
  }

  lemma CursorReaches(pr: PageRead, end: nat)
    requires pr.InStep() && pr.pe.Some? && pr.pe.value.End() >= end
    ensures Reaches(pr.pagemap, end)
  {
    assert pr.pagemap[pr.next - 1].End() >= end;
  }

  // Nothing is stored from one address up to another.
  ghost predicate NothingFrom(pm: seq<Entry>, from: nat, to: nat) {
    forall va: nat :: from <= va < to ==> !HasPage(pm, va)
  }

  /** Looks for the next place of a range in the pagemap: the cursor is on it (0), there is none (1),
      or the pagemap ends before the range does (-1). */
  method Locate(pr: PageRead, off: nat, end: nat) returns (ret: int, at: nat)
    requires pr.InStep() && Sorted(pr.pagemap) && ClearUpTo(pr, off) && off <= end
    modifies pr`next, pr`pe, pr`cvaddr, pr`off
    ensures pr.InStep() && (ret == 0 || ret == 1 || ret == -1)
    ensures ret == 0 ==> pr.pe.Some? && off <= at <= end && (off < end ==> at < end) && pr.cvaddr == at
    ensures ret == 0 ==> at <= pr.pe.value.End() && off < pr.pe.value.End() && NothingFrom(pr.pagemap, off, at)
    ensures ret == 0 && Proper(pr) ==> at < pr.pe.value.End()
    ensures ret == 1 ==> NothingFrom(pr.pagemap, off, end) && ClearUpTo(pr, end)
    ensures ret == 1 && Proper(pr) ==> Reaches(pr.pagemap, end)
    ensures ret == -1 && Proper(pr) && off < end ==> !Reaches(pr.pagemap, end)
  {
    hide Sorted, HasPage, OwnBefore, ClearUpTo, Proper, Reaches, NothingFrom;
    ghost var first, wasOn, was := pr.First(), pr.pe.Some?, pr.cvaddr;
    ClearMeans(pr, off);
    ret := pr.Seek(off);
    at := off;
    if ret == -1 {
      if pr.pe.None? {
        EmptyPagemap(pr, off, end);
      } else if off < pr.cvaddr {
        NothingSkipped(pr, off, first, wasOn, was);
        Skipped(pr, off, end);
      }
      if off < pr.cvaddr {
        if pr.cvaddr < end {
          at := pr.cvaddr;
          if pr.pe.None? {
            return -1, at;
          }
        } else {
          return 1, end;
        }
      } else {
        if off < end && Proper(pr) {
          SearchedAll(pr, off, end);
        }
        return -1, off;
      }
    } else {
      HereFrom(pr.pagemap, off);
    }
    return 0, at;
  }

  lemma HereFrom(pm: seq<Entry>, off: nat)
    ensures NothingFrom(pm, off, off)
  {
  }

  // What is known where nothing was skipped.
  lemma Skipped(pr: PageRead, off: nat, end: nat)
    requires pr.InStep() && pr.pe.Some? && off < pr.cvaddr
    requires forall va: nat :: off <= va < pr.cvaddr ==> !HasPage(pr.pagemap, va)
    ensures NothingFrom(pr.pagemap, off, pr.cvaddr)
    ensures end <= pr.cvaddr ==> NothingFrom(pr.pagemap, off, end) && Reaches(pr.pagemap, end)
    ensures Proper(pr) ==> pr.cvaddr < pr.pe.value.End()
  {
    if Proper(pr) {
      CursorInside(pr, off);
    }
    if end <= pr.cvaddr {
      CursorReaches(pr, end);
    }
  }

  /** Punches the part of a range that is in the cursor's entry, if the parent stores it itself. */
  method PunchEntry(pr: PageRead, off: nat, end: nat, flaky: bool) returns (ret: int, ghost stop: nat)
    requires pr.InStep() && Sorted(pr.pagemap) && |pr.pages| == OwnBefore(pr.pagemap, |pr.pagemap|)
    requires pr.pe.Some? && pr.cvaddr == off <= end && off <= pr.pe.value.End()
    modifies pr`pages
    ensures |pr.pages| == |old(pr.pages)|
    ensures stop == if ret != 0 then off else if pr.pe.value.End() < end then pr.pe.value.End() else end
    ensures PunchedRange(pr.pagemap, old(pr.pages), pr.pages, off, stop)
    ensures !flaky && off < end && off < pr.pe.value.End() ==> ret == 0
  {
    hide PunchedRange, Sorted, HasPage, HasOwnPage, OwnBefore;
    var piovEnd := pr.pe.value.End();
    var to := if piovEnd < end then piovEnd else end;
    PunchedNothing(pr.pagemap, pr.pages, off);
    if !pr.pe.value.inParent {
      ExtendByPunch(pr.pagemap, pr.pages, pr.pages, pr.next - 1, off, off, to - off);
      ret := PunchHole(pr, pr.off, to - off, flaky);
      if ret != 0 {
        return -1, off;
      }
    } else {
      NothingInParent(pr.pagemap, pr.next - 1);
      ExtendOverNothing(pr.pagemap, pr.pages, pr.pages, off, off, to);
    }
    return 0, to;
  }

  // Punching goes on where it stopped.
  lemma PunchedOn(pm: seq<Entry>, was: seq<Page>, mid: seq<Page>, now: seq<Page>, lo: nat, off: nat, at: nat, stop: nat)
    requires PunchedRange(pm, was, mid, lo, off) && NothingFrom(pm, off, at) && PunchedRange(pm, mid, now, at, stop)
    requires lo <= off <= at <= stop
    ensures PunchedRange(pm, was, now, lo, stop)
  {
    forall va: nat | off <= va < at ensures OwnContent(pm, was, va).None? {
    }
  }

  /** Punches a range the child stores itself out of the parent's pages image. Whatever happens, exactly the
      parent's own pages in an initial part of the range are gone; on success that part is the whole range.
      The cursor stays usable for any later range. If no call fails it succeeds, for a parent in good order,
      exactly where the parent's pagemap reaches as far as the range. */
  method DedupOneIovec(pr: PageRead, iov: Iovec, flaky: bool) returns (ret: int, ghost upto: nat)
    requires pr.InStep() && Sorted(pr.pagemap) && |pr.pages| == OwnBefore(pr.pagemap, |pr.pagemap|)
    requires ClearUpTo(pr, iov.base)
    modifies pr
    ensures pr.InStep() && |pr.pages| == |old(pr.pages)|
    ensures iov.base <= upto <= iov.base + iov.len
    ensures PunchedRange(pr.pagemap, old(pr.pages), pr.pages, iov.base, upto)
    ensures ret == 0 ==> upto == iov.base + iov.len && ClearUpTo(pr, upto)
    ensures !flaky && iov.len > 0 && Proper(pr) ==> (ret == 0 <==> Reaches(pr.pagemap, iov.base + iov.len))
  {
    hide PunchedRange, Sorted, OwnBefore, ClearUpTo, Proper, Reaches, NothingFrom;
    ghost var was := pr.pages;
    var iovEnd := iov.base + iov.len;
    var off := iov.base;
    PunchedNothing(pr.pagemap, was, off);
    while true
      invariant pr.InStep() && |pr.pages| == |was|
      invariant iov.base <= off <= iovEnd && (iov.len > 0 ==> off < iovEnd)
      invariant PunchedRange(pr.pagemap, was, pr.pages, iov.base, off)
      invariant ClearUpTo(pr, off)
      decreases iovEnd - off
    {
      ghost var mid, stop := pr.pages, off;
      var at;
      ret, at := Locate(pr, off, iovEnd);
      if ret == 1 {
        PunchedNothing(pr.pagemap, mid, iovEnd);
        PunchedOn(pr.pagemap, was, mid, mid, iov.base, off, iovEnd, iovEnd);
        return 0, iovEnd;
      }
      if ret != 0 {
        return -1, off;
      }
      ret, stop := PunchEntry(pr, at, iovEnd, flaky);
      PunchedOn(pr.pagemap, was, mid, pr.pages, iov.base, off, at, stop);
      if ret != 0 {
        return -1, stop;
      }
      var piovEnd := pr.pe.value.End();
      if piovEnd < iovEnd {
        off := piovEnd;
        ClearBehind(pr, off);
      } else {
        ClearBehind(pr, iovEnd);
        CursorReaches(pr, iovEnd);
        return 0, iovEnd;
      }
    }
  }

  /** A parent image in which nothing was lost that its child still needs: away from the addresses
      the child stores itself, it holds what it held. */
  ghost predicate KeptForChild(child: seq<Entry>, pm: seq<Entry>, was: seq<Page>, now: seq<Page>) {
    && |now| == |was|
    && forall va: nat :: !HasOwnPage(child, va) ==> OwnContent(pm, now, va) == OwnContent(pm, was, va)
  }

  // The parent keeps no page at an address one of the first n child entries stores.
  ghost predicate FreedUpTo(child: seq<Entry>, n: nat, pm: seq<Entry>, now: seq<Page>) {
    forall k, va: nat ::
      0 <= k < n && k < |child| && !child[k].inParent && child[k].Covers(va) && OwnContent(pm, now, va).Some?
      ==> OwnContent(pm, now, va) == Some(ZeroPage())
  }

  // Punching inside a child's own entry loses nothing the child needs.
  lemma PunchKeeps(child: seq<Entry>, k: nat, pm: seq<Entry>, was: seq<Page>, mid: seq<Page>, now: seq<Page>, upto: nat)
    requires k < |child| && !child[k].inParent && child[k].vaddr <= upto <= child[k].End()
    requires KeptForChild(child, pm, was, mid)
    requires PunchedRange(pm, mid, now, child[k].vaddr, upto)
    ensures KeptForChild(child, pm, was, now)
  {
    forall va: nat | !HasOwnPage(child, va)
      ensures OwnContent(pm, now, va) == OwnContent(pm, was, va)
    {
      assert !child[k].Covers(va);
    }
  }

  // Punching a whole own entry frees it, and un-frees nothing.
  lemma PunchFrees(child: seq<Entry>, k: nat, pm: seq<Entry>, mid: seq<Page>, now: seq<Page>)
    requires k < |child| && !child[k].inParent
    requires FreedUpTo(child, k, pm, mid)
    requires PunchedRange(pm, mid, now, child[k].vaddr, child[k].End())
    ensures FreedUpTo(child, k + 1, pm, now)
  {
  }

  /** Dedup cannot be seen through the child: whatever was kept for the child suffices
      to read every address of the chain as before. */
  lemma {:induction false} KeptMeansUnchanged(s: Snapshot, now: seq<Page>, va: nat)
    requires Sorted(s.pagemap) && s.parent.Some?
    requires KeptForChild(s.pagemap, s.parent.value.pagemap, s.parent.value.pages, now)
    ensures Lookup(s.(parent := Some(s.parent.value.(pages := now))), va) == Lookup(s, va)
  {
    var r := EntryAt(s.pagemap, va);
    if r.Some? && s.pagemap[r.value].inParent {
      NothingInParent(s.pagemap, r.value);
      assert !HasOwnPage(s.pagemap, va);
      var p := s.parent.value;
      assert OwnContent(p.pagemap, now, va) == OwnContent(p.pagemap, p.pages, va);
    }
  }

  // Where dedup stands after the first n entries of the child.
  ghost predicate Underway(child: seq<Entry>, n: nat, prp: PageRead, was: seq<Page>)
    reads prp
  {
    && prp.InStep() && Sorted(prp.pagemap) && |prp.pages| == OwnBefore(prp.pagemap, |prp.pagemap|)
    && KeptForChild(child, prp.pagemap, was, prp.pages)
    && FreedUpTo(child, n, prp.pagemap, prp.pages)
    && (ClearUpTo(prp, 0) || exists j :: 0 <= j < n && j < |child| && ClearUpTo(prp, child[j].End()))
  }

  // Dedup of one entry of the child.
  method DedupEntry(child: seq<Entry>, k: nat, prp: PageRead, ghost was: seq<Page>, flaky: bool) returns (ret: int)
    requires Sorted(child) && k < |child| && Underway(child, k, prp, was)
    modifies prp
    ensures KeptForChild(child, prp.pagemap, was, prp.pages)
    ensures ret == 0 ==> Underway(child, k + 1, prp, was)
    ensures !flaky && Proper(prp) && child[k].nrPages > 0 ==>
              (ret == 0 <==> child[k].inParent || Reaches(prp.pagemap, child[k].End()))
  {
    hide PunchedRange, KeptForChild, FreedUpTo, Sorted, OwnBefore, ClearUpTo, Proper, Reaches;
    if child[k].inParent {
      InParentFrees(child, k, prp.pagemap, prp.pages);
      return 0;
    }
    ghost var mid, upto := prp.pages, 0;
    ClearLater(child, k, prp);
    ret, upto := DedupOneIovec(prp, Iovec(child[k].vaddr, child[k].nrPages), flaky);
    PunchKeeps(child, k, prp.pagemap, was, mid, prp.pages, upto);
    if ret == 0 {
      PunchFrees(child, k, prp.pagemap, mid, prp.pages);
      assert ClearUpTo(prp, child[k].End());
    }
  }

  // The parent's pagemap reaches as far as each of the first n entries the child stores.
  ghost predicate ReachesAll(child: seq<Entry>, n: nat, pm: seq<Entry>) {
    forall k :: 0 <= k < n && k < |child| && !child[k].inParent ==> Reaches(pm, child[k].End())
  }

  /** Dedup of one task's pagemap against its parent snapshot. On every path, every page read through the
      child chain is what it was; on success the parent keeps no page at any address the child stores.
      If no call fails it succeeds, for images in good order, exactly where the parent's pagemap reaches as far
      as all that the child stores. */
  method DedupOnePagemap(pr: PageRead, flaky: bool) returns (ret: int)
    requires pr.Valid() && pr.pe.None?
    requires pr.parent != null ==> pr.parent.pe.None?
    modifies pr, pr.parent
    ensures forall va: nat :: Lookup(pr.Snap(), va) == old(Lookup(pr.Snap(), va))
    ensures pr.pages == old(pr.pages)
    ensures ret == 0 && pr.parent != null ==>
              FreedUpTo(pr.pagemap, |pr.pagemap|, pr.parent.pagemap, pr.parent.pages)
    ensures pr.parent == null ==> ret == 0
    ensures pr.parent != null && !flaky && Proper(pr) && Proper(pr.parent) ==>
              (ret == 0 <==> ReachesAll(pr.pagemap, |pr.pagemap|, pr.parent.pagemap))
  {
    hide KeptForChild, FreedUpTo, Sorted, OwnBefore, Lookup, HasPage, ClearUpTo, Reaches;
    var prp := pr.parent;
    if prp == null {
      return 0;
    }
    ghost var was, snap := prp.pages, pr.Snap();
    NothingDoneYet(pr.pagemap, prp);
    ret := pr.GetPagemap();
    while ret > 0
      invariant pr.next <= |pr.pagemap| && pr.pages == snap.pages && (ret == 0 || ret == 1)
      invariant ret > 0 ==> 0 < pr.next && pr.pe == Some(pr.pagemap[pr.next - 1])
      invariant ret == 0 ==> pr.next == |pr.pagemap|
      invariant Underway(pr.pagemap, if ret > 0 then pr.next - 1 else pr.next, prp, was)
      invariant !flaky && Proper(pr) && Proper(prp) ==>
                  ReachesAll(pr.pagemap, if ret > 0 then pr.next - 1 else pr.next, prp.pagemap)
      invariant prp.parent != null ==> prp.parent.Snap() == snap.parent.value.parent.value
      decreases |pr.pagemap| - pr.next, ret
    {
      ret := DedupEntry(pr.pagemap, pr.next - 1, prp, was, flaky);
      if ret != 0 {
        ReadAsBefore(pr, snap, was);
        return ret;
      }
      ret := pr.GetPagemap();
    }
    ReadAsBefore(pr, snap, was);
  }

  lemma NothingDoneYet(child: seq<Entry>, prp: PageRead)
    requires prp.pe.None?
    ensures KeptForChild(child, prp.pagemap, prp.pages, prp.pages)
    ensures FreedUpTo(child, 0, prp.pagemap, prp.pages)
    ensures ClearUpTo(prp, 0)
  {
  }

  // A cursor that is clear from the end of an earlier entry is clear from the start of a later one.
  lemma ClearLater(child: seq<Entry>, k: nat, prp: PageRead)
    requires Sorted(child) && k < |child|
    requires ClearUpTo(prp, 0) || exists j :: 0 <= j < k && j < |child| && ClearUpTo(prp, child[j].End())
    ensures ClearUpTo(prp, child[k].vaddr)
  {
  }

  lemma InParentFrees(child: seq<Entry>, k: nat, pm: seq<Entry>, now: seq<Page>)
    requires k < |child| && child[k].inParent && FreedUpTo(child, k, pm, now)
    ensures FreedUpTo(child, k + 1, pm, now)
  {
  }

  lemma {:induction false} ReadAsBefore(pr: PageRead, snap: Snapshot, was: seq<Page>)
    requires pr.Shape() && pr.parent != null && Sorted(pr.pagemap)
    requires snap.pagemap == pr.pagemap && snap.pages == pr.pages
    requires snap.parent.Some? && snap.parent.value == pr.parent.Snap().(pages := was)
    requires KeptForChild(pr.pagemap, pr.parent.pagemap, was, pr.parent.pages)
    ensures forall va: nat :: Lookup(pr.Snap(), va) == Lookup(snap, va)
  {
    assert pr.Snap() == snap.(parent := Some(snap.parent.value.(pages := pr.parent.pages)));
    forall va: nat
      ensures Lookup(pr.Snap(), va) == Lookup(snap, va)
    {
      KeptMeansUnchanged(snap, pr.parent.pages, va);
    }
  }
}
