/** The images of one memory snapshot and of a chain of snapshots.

    A pagemap image is a list of entries (address, number of pages, "look in the parent");
    a pages image holds, one after another, the pages of the entries that are not in the parent.
    Addresses, lengths and file offsets are counted in pages. */
module PageImages {
  import opened Options

  const PAGE_SIZE: nat := 4096
  const TWO_20: nat := 0x10_0000
  const TWO_32: nat := 0x1_0000_0000

  newtype Byte = b: int | 0 <= b < 256

  // The content of one page; the transfer over a socket looks inside, everything else moves whole pages.
  datatype Page = Page(bytes: seq<Byte>)

  // What a punched-out page of a file reads as.
  function ZeroPage(): Page {
    Page(seq(PAGE_SIZE, _ => 0))
  }

  datatype Iovec = Iovec(base: nat, len: nat) {
    function End(): nat {
      base + len
    }
  }

  function Range(base: nat, len: nat): (r: seq<nat>)
    ensures |r| == len && forall i :: 0 <= i < len ==> r[i] == base + i
  {
    if len == 0 then [] else Range(base, len - 1) + [base + len - 1]
  }

  // The page addresses of a list of runs, one by one.
  function Expand(iovs: seq<Iovec>): seq<nat> {
    if iovs == [] then []
    else
      var last := iovs[|iovs| - 1];
      Expand(iovs[..|iovs| - 1]) + Range(last.base, last.len)
  }

  // The pages of a memory at a list of addresses.
  function Contents(mem: nat -> Page, addrs: seq<nat>): (r: seq<Page>)
    ensures |r| == |addrs| && forall i :: 0 <= i < |addrs| ==> r[i] == mem(addrs[i])
  {
    if addrs == [] then [] else Contents(mem, addrs[..|addrs| - 1]) + [mem(addrs[|addrs| - 1])]
  }

  // How many pages a list of runs has.
  function Total(iovs: seq<Iovec>): nat {
    if iovs == [] then 0 else Total(iovs[..|iovs| - 1]) + iovs[|iovs| - 1].len
  }

  datatype Entry = Entry(vaddr: nat, nrPages: nat, inParent: bool) {
    function End(): nat {
      vaddr + nrPages
    }

    predicate Covers(va: nat) {
      vaddr <= va < End()
    }
  }

  // The length of a run in bytes, a product of 32 bits.
  function Length32(nrPages: nat): nat {
    nrPages * PAGE_SIZE % TWO_32
  }

  /** The length is right exactly below 2^20 pages; it is always one of whole pages, and of fewer than that. */
  lemma LengthFits(nrPages: nat)
    ensures Length32(nrPages) == nrPages * PAGE_SIZE <==> nrPages < TWO_20
    ensures Length32(nrPages) == nrPages % TWO_20 * PAGE_SIZE
  {
    var q, r := nrPages / TWO_20, nrPages % TWO_20;
    assert nrPages * PAGE_SIZE == q * TWO_32 + r * PAGE_SIZE;
  }

  // An entry with its length as it is read back.
  function Narrow(e: Entry): Entry {
    Entry(e.vaddr, Length32(e.nrPages) / PAGE_SIZE, e.inParent)
  }

  function AsRead(pm: seq<Entry>): (r: seq<Entry>)
    ensures |r| == |pm| && forall i :: 0 <= i < |pm| ==> r[i] == Narrow(pm[i])
  {
    seq(|pm|, i requires 0 <= i < |pm| => Narrow(pm[i]))
  }

  lemma NarrowFits(e: Entry)
    ensures Narrow(e) == Entry(e.vaddr, e.nrPages % TWO_20, e.inParent)
    ensures Narrow(e).nrPages <= e.nrPages && (Narrow(e) == e <==> e.nrPages < TWO_20)
  {
    LengthFits(e.nrPages);
  }

  // A snapshot directory: the two images of a task and the link to the parent snapshot.
  datatype Snapshot = Snapshot(pagemap: seq<Entry>, pages: seq<Page>, parent: Option<Snapshot>)

  ghost predicate Sorted(pm: seq<Entry>) {
    forall i, j :: 0 <= i < j < |pm| ==> pm[i].End() <= pm[j].vaddr
  }

  ghost predicate HasPage(pm: seq<Entry>, va: nat) {
    exists k :: 0 <= k < |pm| && pm[k].Covers(va)
  }

  // The addresses whose pages are stored next to the pagemap itself.
  ghost predicate HasOwnPage(pm: seq<Entry>, va: nat) {
    exists k :: 0 <= k < |pm| && pm[k].Covers(va) && !pm[k].inParent
  }

  // Where the pages of the k-th entry start in the pages image.
  function OwnBefore(pm: seq<Entry>, k: nat): nat
    requires k <= |pm|
  {
    if k == 0 then 0
    else OwnBefore(pm, k - 1) + if pm[k - 1].inParent then 0 else pm[k - 1].nrPages
  }

  // The entry holding an address, among the first n.
  function EntryAmong(pm: seq<Entry>, n: nat, va: nat): (r: Option<nat>)
    requires n <= |pm|
    ensures r.Some? ==> r.value < n && pm[r.value].Covers(va)
    ensures r.None? ==> forall k :: 0 <= k < n ==> !pm[k].Covers(va)
  {
    if n == 0 then None
    else if pm[n - 1].Covers(va) then Some(n - 1)
    else EntryAmong(pm, n - 1, va)
  }

  function EntryAt(pm: seq<Entry>, va: nat): (r: Option<nat>)
    ensures r.Some? ==> r.value < |pm| && pm[r.value].Covers(va)
    ensures r.Some? <==> HasPage(pm, va)
  {
    EntryAmong(pm, |pm|, va)
  }

  // The page an image stores itself for an address.
  function OwnContent(pm: seq<Entry>, pages: seq<Page>, va: nat): Option<Page> {
    match EntryAt(pm, va)
    case None => None
    case Some(k) =>
      var i := OwnBefore(pm, k) + (va - pm[k].vaddr);
      if !pm[k].inParent && i < |pages| then Some(pages[i]) else None
  }

  /** The reference meaning of a chain of snapshots: a page is the snapshot's own page,
      else whatever the parent snapshot has at that address. */
  function Lookup(s: Snapshot, va: nat): Option<Page>
    decreases s
  {
    match EntryAt(s.pagemap, va)
    case None => None
    case Some(k) =>
      if s.pagemap[k].inParent then
        match s.parent
        case None => None
        case Some(p) => Lookup(p, va)
      else
        OwnContent(s.pagemap, s.pages, va)
  }

  // A chain of snapshots with the lengths as they are read back.
  function ChainAsRead(s: Snapshot): Snapshot
    decreases s
  {
    Snapshot(AsRead(s.pagemap), s.pages, if s.parent.None? then None else Some(ChainAsRead(s.parent.value)))
  }

  // What one snapshot needs of itself: entries in order, exactly the pages they speak of,
  // and no entry that points to a parent it does not have.
  ghost predicate WellFormedImage(s: Snapshot) {
    && Sorted(s.pagemap)
    && |s.pages| == OwnBefore(s.pagemap, |s.pagemap|)
    && forall k :: 0 <= k < |s.pagemap| && s.pagemap[k].inParent ==> s.parent.Some?
  }

  // Every page left to the parent is in the parent's pagemap.
  ghost predicate CoveredByParent(s: Snapshot) {
    forall k, va ::
      0 <= k < |s.pagemap| && s.pagemap[k].inParent && s.pagemap[k].Covers(va)
      ==> s.parent.Some? && HasPage(s.parent.value.pagemap, va)
  }

  ghost predicate WellFormed(s: Snapshot)
    decreases s
  {
    && WellFormedImage(s)
    && CoveredByParent(s)
    && (s.parent.Some? ==> WellFormed(s.parent.value))
  }

  lemma {:induction false} OwnBeforeMonotone(pm: seq<Entry>, i: nat, j: nat)
    requires i <= j <= |pm|
    ensures OwnBefore(pm, i) <= OwnBefore(pm, j)
    decreases j
  {
    if i < j {
      OwnBeforeMonotone(pm, i, j - 1);
    }
  }

  lemma {:induction false} OwnBeforePrefix(pm: seq<Entry>, n: nat, k: nat)
    requires k <= n <= |pm|
    ensures OwnBefore(pm[..n], k) == OwnBefore(pm, k)
    decreases k
  {
    if k > 0 {
      OwnBeforePrefix(pm, n, k - 1);
    }
  }

  lemma AsReadSorted(pm: seq<Entry>)
    requires Sorted(pm)
    ensures Sorted(AsRead(pm))
  {
    forall i, j | 0 <= i < j < |pm|
      ensures AsRead(pm)[i].End() <= AsRead(pm)[j].vaddr
    {
      NarrowFits(pm[i]);
    }
  }

  // What is read is in the pagemap.
  lemma AsReadCovers(pm: seq<Entry>, k: nat, va: nat)
    requires k < |pm| && AsRead(pm)[k].Covers(va)
    ensures pm[k].Covers(va) && HasPage(pm, va) && (!pm[k].inParent ==> HasOwnPage(pm, va))
  {
    NarrowFits(pm[k]);
  }

  // Runs that fit are at the same place in the pages image.
  lemma {:induction false} AsReadOwn(pm: seq<Entry>, k: nat)
    requires k <= |pm| && forall i :: 0 <= i < k && !pm[i].inParent ==> pm[i].nrPages < TWO_20
    ensures OwnBefore(AsRead(pm), k) == OwnBefore(pm, k)
    decreases k
  {
    if k > 0 {
      AsReadOwn(pm, k - 1);
      NarrowFits(pm[k - 1]);
    }
  }

  // In a sorted pagemap an address has one entry.
  lemma EntryAtUnique(pm: seq<Entry>, k: nat, va: nat)
    requires Sorted(pm)
    requires k < |pm| && pm[k].Covers(va)
    ensures EntryAt(pm, va) == Some(k)
  {
    assert HasPage(pm, va);
  }

  // A chain that is well formed has a page wherever its newest pagemap says so.
  lemma {:induction false} LookupSucceeds(s: Snapshot, va: nat)
    requires WellFormed(s)
    ensures Lookup(s, va).Some? <==> HasPage(s.pagemap, va)
    decreases s
  {
    var r := EntryAt(s.pagemap, va);
    if r.Some? {
      var k := r.value;
      if s.pagemap[k].inParent {
        LookupSucceeds(s.parent.value, va);
      } else {
        OwnBeforeMonotone(s.pagemap, k + 1, |s.pagemap|);
      }
    }
  }

  lemma {:induction false} ExpandSnoc(init: seq<Iovec>, x: Iovec)
    ensures Expand(init + [x]) == Expand(init) + Range(x.base, x.len)
    ensures Total(init + [x]) == Total(init) + x.len
  {
    assert (init + [x])[..|init|] == init;
  }

  lemma {:induction false} ExpandSize(iovs: seq<Iovec>)
    ensures |Expand(iovs)| == Total(iovs)
  {
    if iovs != [] {
      ExpandSize(iovs[..|iovs| - 1]);
    }
  }

  lemma {:induction false} ExpandConcat(a: seq<Iovec>, b: seq<Iovec>)
    ensures Expand(a + b) == Expand(a) + Expand(b)
    ensures Total(a + b) == Total(a) + Total(b)
  {
    if b == [] {
      assert a + b == a;
    } else {
      var init, x := b[..|b| - 1], b[|b| - 1];
      ExpandConcat(a, init);
      ExpandSnoc(a + init, x);
      ExpandSnoc(init, x);
      assert b == init + [x] && a + b == (a + init) + [x];
    }
  }

  // The first run of a list comes first.
  lemma {:induction false} ExpandFirst(iovs: seq<Iovec>)
    requires iovs != []
    ensures Expand(iovs) == Range(iovs[0].base, iovs[0].len) + Expand(iovs[1..])
    ensures Total(iovs) == iovs[0].len + Total(iovs[1..])
  {
    ExpandConcat(iovs[..1], iovs[1..]);
    assert iovs == iovs[..1] + iovs[1..];
    assert iovs[..1] == [] + [iovs[0]];
    ExpandSnoc([], iovs[0]);
  }

  lemma {:induction false} ContentsConcat(mem: nat -> Page, a: seq<nat>, b: seq<nat>)
    ensures Contents(mem, a + b) == Contents(mem, a) + Contents(mem, b)
  {
  }
}
