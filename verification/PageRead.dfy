/** Reading pages back from a chain of snapshots through forward-only cursors (page-read.c). */
module PageReader {
  import opened Options
  import opened PageImages

  class PageRead {
    const pagemap: seq<Entry>  // the entries of the pagemap image behind fd, as they are read
    const parent: PageRead?
    var pages: seq<Page>       // the pages image behind fd_pg

    var next: nat              // how many entries were read from fd
    var pe: Option<Entry>      // the current entry
    var cvaddr: nat            // the address the cursor is on
    var off: nat               // the file offset of fd_pg

    ghost const Repr: set<PageRead>

    // The readers of a chain are distinct objects.
    ghost predicate Shape()
      decreases Repr
    {
      && this in Repr
      && (parent != null ==>
            && parent in Repr
            && parent.Repr <= Repr
            && this !in parent.Repr
            && parent.Shape())
    }

    // The images this reader and its ancestors have open.
    ghost function Snap(): (s: Snapshot)
      requires Shape()
      reads Repr`pages
      decreases Repr
      ensures s.pagemap == pagemap && s.pages == pages
      ensures s.parent == if parent == null then None else Some(parent.Snap())
    {
      Snapshot(pagemap, pages, if parent == null then None else Some(parent.Snap()))
    }

    // The address cursor and the file offset of one reader are in step.
    ghost predicate InStep()
      reads this
    {
      && next <= |pagemap|
      && (pe.None? ==> next == 0 && off == 0)
      && (pe.Some? ==>
            && 0 < next
            && pe.value == pagemap[next - 1]
            && pe.value.vaddr <= cvaddr <= pe.value.End()
            && off == OwnBefore(pagemap, next - 1) + if pe.value.inParent then 0 else cvaddr - pe.value.vaddr)
    }

    ghost predicate Valid()
      reads Repr
      decreases Repr
    {
      && Shape()
      && InStep()
      && Sorted(pagemap)
      && |pages| == OwnBefore(pagemap, |pagemap|)
      && (parent != null ==> parent.Valid())
    }

    // No cursor of the chain has moved past an address.
    ghost predicate Behind(va: nat)
      requires Shape()
      reads Repr
      decreases Repr
    {
      && (pe.Some? ==> cvaddr <= va)
      && (parent != null ==> parent.Behind(va))
    }

    constructor (pagemap: seq<Entry>, pages: seq<Page>, parent: PageRead?)
      requires parent != null ==> parent.Shape()
      ensures Shape() && InStep() && this.pagemap == pagemap && this.pages == pages && this.parent == parent
      ensures pe.None? && fresh(this) && Repr == {this} + if parent == null then {} else parent.Repr
    {
      this.pagemap, this.pages, this.parent := pagemap, pages, parent;
      next, pe, cvaddr, off := 0, None, *, 0;  // the address is not set before the first entry
      Repr := {this} + if parent == null then {} else parent.Repr;
    }

    // The cursor has used up the current entry.
    ghost predicate AtEnd()
      reads this
    {
      pe.Some? ==> cvaddr == pe.value.End()
    }

    /** Moves to the next entry. A return of 0 is the end of the pagemap image;
        an entry that needs a parent there is none of is an error, but has become current. */
    method GetPagemap() returns (ret: int)
      requires next <= |pagemap|
      modifies `next, `pe, `cvaddr
      ensures old(InStep() && AtEnd()) ==> InStep()
      ensures ret == 0 <==> old(next) == |pagemap|
      ensures ret == 0 ==> next == old(next) && pe == old(pe) && cvaddr == old(cvaddr)
      ensures ret != 0 ==>
                && next == old(next) + 1
                && pe == Some(pagemap[old(next)])
                && cvaddr == pagemap[old(next)].vaddr
                && ret == if pagemap[old(next)].inParent && parent == null then -1 else 1
    {
      if next == |pagemap| {
        return 0;
      }
      pe := Some(pagemap[next]);
      cvaddr := pagemap[next].vaddr;
      next := next + 1;
      if pe.value.inParent && parent == null {
        return -1;
      }
      return 1;
    }

    method SkipPages(len: nat)
      requires InStep() && pe.Some? && cvaddr + len <= pe.value.End()
      modifies `cvaddr, `off
      ensures InStep() && cvaddr == old(cvaddr) + len
    {
      if len == 0 {
        return;
      }
      if !pe.value.inParent {
        off := off + len;
      }
      cvaddr := cvaddr + len;
    }

    // Where the entries a forward search may still meet begin.
    ghost function First(): nat
      reads this
    {
      if pe.Some? && 0 < next then next - 1 else next
    }

    /** Moves the cursor forward to an address. On success the cursor and the file offset are on its page.
        Whatever the result, every entry passed over ends at or before the address.
        A failure with the cursor beyond the address means that nothing from the old cursor up to the
        new one holds it; any other failure is the end of the pagemap or an entry that lacks its parent. */
    method Seek(vaddr: nat) returns (ret: int)
      requires InStep()
      modifies `next, `pe, `cvaddr, `off
      ensures InStep() && (ret == 0 || ret == -1)
      ensures old(First()) <= First() && (old(pe.Some?) ==> pe.Some?)
      ensures old(First()) < First() ==> pagemap[First() - 1].End() <= vaddr
      ensures ret == 0 ==> pe.Some? && pe.value.Covers(vaddr) && cvaddr == vaddr
      ensures ret == -1 && pe.Some? && vaddr < cvaddr ==>
                cvaddr == if First() == old(First()) && old(pe.Some?) then old(cvaddr) else pe.value.vaddr
      ensures ret == -1 && (pe.Some? ==> cvaddr <= vaddr) ==>
                || (next == |pagemap| && (pe.Some? ==> pe.value.End() <= vaddr))
                || (pe.Some? && pe.value.inParent && parent == null)
    {
      hide OwnBefore;
      ghost var first, was, at := First(), pe.Some?, cvaddr;
      if pe.None? {
        ret := GetPagemap();
        if ret <= 0 {
          return -1;
        }
      }
      while true
        invariant InStep() && pe.Some?
        invariant first <= First()
        invariant cvaddr == if First() == first && was then at else pe.value.vaddr
        invariant first < First() ==> pagemap[First() - 1].End() <= vaddr
        decreases |pagemap| - next
      {
        if vaddr < cvaddr {
          return -1;
        }
        var iovEnd := pe.value.End();
        if iovEnd <= vaddr {
          SkipPages(iovEnd - cvaddr);
          ret := GetPagemap();
          if ret <= 0 {
            return -1;
          }
          continue;
        }
        SkipPages(vaddr - cvaddr);
        return 0;
      }
    }

    // No entry is left to a parent that does not exist.
    ghost predicate NoOrphans() {
      forall k :: 0 <= k < |pagemap| && pagemap[k].inParent ==> parent != null
    }

    /** The search, with what it is for: from a cursor that is not beyond the address
        it succeeds exactly for the addresses of the pagemap. */
    method SeekAhead(vaddr: nat) returns (ret: int)
      requires InStep() && Sorted(pagemap) && NoOrphans()
      requires pe.Some? ==> cvaddr <= vaddr
      modifies `next, `pe, `cvaddr, `off
      ensures InStep() && (ret == 0 || ret == -1)
      ensures ret == 0 <==> HasPage(pagemap, vaddr)
      ensures ret == 0 ==> pe.Some? && pe.value.Covers(vaddr) && cvaddr == vaddr
    {
      ret := Seek(vaddr);
      if ret == -1 && HasPage(pagemap, vaddr) {
        HeldAhead(vaddr);
      }
    }

    /** Reads the page under the cursor, from this snapshot or through the parents.
        On a well-formed chain whose cursors are not past the address this always succeeds and
        yields what the plain recursive lookup yields, every level again in step. */
    method ReadPage(vaddr: nat) returns (ret: int, buf: Page)
      requires Valid() && WellFormed(Snap())
      requires pe.Some? && pe.value.Covers(vaddr) && cvaddr == vaddr
      requires Behind(vaddr)
      modifies Repr`next, Repr`pe, Repr`cvaddr, Repr`off
      ensures Valid() && ret == 1
      ensures Lookup(Snap(), vaddr) == Some(buf)
      ensures next == old(next) && pe == old(pe) && cvaddr == vaddr + 1
      ensures Behind(vaddr + 1)
      decreases Repr, 0
    {
      hide WellFormed, Lookup, OwnBefore, Sorted;
      if pe.value.inParent {
        InParentPage(vaddr);
        ret, buf := parent.SeekAndRead(vaddr);
        if ret == -1 {
          return ret, buf;
        }
        StepOver();
      } else {
        OwnPage(vaddr);
        buf := ReadFile();
      }
      return 1, buf;
    }

    // The address cursor moves over a page that is in the parent; the file offset stays.
    method StepOver()
      requires InStep() && pe.Some? && pe.value.inParent && cvaddr < pe.value.End()
      modifies `cvaddr
      ensures InStep() && cvaddr == old(cvaddr) + 1
    {
      cvaddr := cvaddr + 1;
    }

    // A page is read at the file offset, and both cursors move over it.
    method ReadFile() returns (buf: Page)
      requires InStep() && pe.Some? && !pe.value.inParent && cvaddr < pe.value.End() && off < |pages|
      modifies `cvaddr, `off
      ensures InStep() && cvaddr == old(cvaddr) + 1 && buf == pages[old(off)]
    {
      buf := pages[off];
      off := off + 1;
      cvaddr := cvaddr + 1;
    }

    // What a reader does on behalf of its child.
    method SeekAndRead(vaddr: nat) returns (ret: int, buf: Page)
      requires Valid() && WellFormed(Snap()) && HasPage(pagemap, vaddr) && NoOrphans()
      requires Behind(vaddr)
      modifies Repr`next, Repr`pe, Repr`cvaddr, Repr`off
      ensures Valid() && ret == 1
      ensures Lookup(Snap(), vaddr) == Some(buf)
      ensures Behind(vaddr + 1)
      decreases Repr, 1
    {
      ret := SeekAhead(vaddr);
      if ret == -1 {
        return ret, ZeroPage();
      }
      ret, buf := ReadPage(vaddr);
    }

    // A page of a current entry left to the parent is the parent's page.
    lemma {:induction false} InParentPage(va: nat)
      requires Valid() && WellFormed(Snap())
      requires pe.Some? && pe.value.Covers(va) && pe.value.inParent
      ensures parent != null && parent.NoOrphans() && HasPage(parent.pagemap, va) && WellFormed(parent.Snap())
      ensures Lookup(Snap(), va) == Lookup(parent.Snap(), va)
    {
      EntryAtUnique(pagemap, next - 1, va);
      assert Snap().pagemap[next - 1].Covers(va);
      assert WellFormedImage(parent.Snap());
    }

    // A page of a current entry that is not left to the parent is at the file offset.
    lemma OwnPage(va: nat)
      requires Valid()
      requires pe.Some? && pe.value.Covers(va) && !pe.value.inParent && cvaddr == va
      ensures off < |pages| && Lookup(Snap(), va) == Some(pages[off])
      ensures Behind(va) ==> parent != null ==> parent.Behind(va + 1)
    {
      EntryAtUnique(pagemap, next - 1, va);
      OwnBeforeMonotone(pagemap, next, |pagemap|);
      if Behind(va) && parent != null {
        parent.BehindLater(va, va + 1);
      }
    }

    // An address of the pagemap is held by an entry that ends beyond it and does not follow
    // one that starts beyond it.
    lemma HeldAhead(va: nat)
      requires Sorted(pagemap) && HasPage(pagemap, va)
      ensures exists k :: 0 <= k < |pagemap| && pagemap[k].Covers(va)
                && (forall i :: 0 <= i < |pagemap| && pagemap[i].End() <= va ==> i < k)
                && (forall i :: 0 <= i < |pagemap| && va < pagemap[i].vaddr ==> k < i)
    {
    }

    lemma {:induction false} BehindLater(va: nat, vb: nat)
      requires Shape() && Behind(va) && va <= vb
      ensures Behind(vb)
      decreases Repr
    {
      if parent != null {
        parent.BehindLater(va, vb);
      }
    }
  }

  // Opens the images of a snapshot and of its parents, whatever is in them. The length of an entry is always
  // used as the number of bytes it is read as, which has 32 bits.
  method OpenPageRead(s: Snapshot) returns (pr: PageRead)
    ensures pr.Shape() && pr.InStep() && pr.Snap() == ChainAsRead(s) && fresh(pr.Repr) && pr.pe.None? && pr.Behind(0)
    ensures WellFormed(ChainAsRead(s)) ==> pr.Valid()
    decreases s
  {
    var parent: PageRead? := null;
    if s.parent.Some? {
      parent := OpenPageRead(s.parent.value);
    }
    pr := new PageRead(AsRead(s.pagemap), s.pages, parent);
  }
}
