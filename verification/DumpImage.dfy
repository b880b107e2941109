/** What a dump into local images looks like when read back: one sorted pagemap, and every page in its place. */
module DumpImages {
  import opened Options
  import opened PageImages
  import opened PagePipes
  import opened PageXfers

  // The pagemap a dump writes.
  function Merged(iovs: seq<Iovec>, holes: seq<Iovec>): seq<Entry>
    decreases |iovs| + |holes|
  {
    if holes != [] && (iovs == [] || holes[0].base < iovs[0].base) then
      [Entry(holes[0].base, holes[0].len, true)] + Merged(iovs, holes[1..])
    else if iovs != [] then
      [Entry(iovs[0].base, iovs[0].len, false)] + Merged(iovs[1..], holes)
    else
      []
  }

  // How many writes a pagemap and its pages take.
  function EntryWrites(pm: seq<Entry>): nat {
    if pm == [] then 0 else (if pm[0].inParent then 1 else 2) + EntryWrites(pm[1..])
  }

  // Writing a page pipe into local images appends the merged pagemap and the pages of the runs.
  lemma {:induction false} LocalDump(iovs: seq<Iovec>, holes: seq<Iovec>, mem: nat -> Page, pm: seq<Entry>,
                                     pages: seq<Page>)
    ensures AllFrom(iovs, 0)
    ensures ApplyAll(Images(pm, pages), Merge(iovs, holes, 0, mem))
            == Images(pm + Merged(iovs, holes), pages + Contents(mem, Expand(iovs)))
    decreases |iovs| + |holes|
  {
    hide Contents, Expand;
    var ops := Merge(iovs, holes, 0, mem);
    FirstContents(iovs, mem);
    if holes != [] && (iovs == [] || holes[0].base < iovs[0].base) {
      var e := Entry(holes[0].base, holes[0].len, true);
      LocalDump(iovs, holes[1..], mem, pm + [e], pages);
      assert ops[1..] == Merge(iovs, holes[1..], 0, mem);
      assert pm + [e] + Merged(iovs, holes[1..]) == pm + ([e] + Merged(iovs, holes[1..]));
    } else if iovs != [] {
      var e, c := Entry(iovs[0].base, iovs[0].len, false), Contents(mem, Range(iovs[0].base, iovs[0].len));
      LocalDump(iovs[1..], holes, mem, pm + [e], pages + c);
      assert ops[1..] == Merge(iovs[1..], holes, 0, mem);
      assert pm + [e] + Merged(iovs[1..], holes) == pm + ([e] + Merged(iovs[1..], holes));
      assert pages + c + Contents(mem, Expand(iovs[1..])) == pages + (c + Contents(mem, Expand(iovs[1..])));
    } else {
      assert pm + [] == pm && pages + [] == pages;
    }
  }

  lemma {:induction false} LocalWrites(iovs: seq<Iovec>, holes: seq<Iovec>, mem: nat -> Page)
    requires Runs(iovs)
    ensures AllFrom(iovs, 0) && AllWrites(Merge(iovs, holes, 0, mem)) == EntryWrites(Merged(iovs, holes))
    decreases |iovs| + |holes|
  {
    var ops := Merge(iovs, holes, 0, mem);
    if holes != [] && (iovs == [] || holes[0].base < iovs[0].base) {
      LocalWrites(iovs, holes[1..], mem);
      assert ops[1..] == Merge(iovs, holes[1..], 0, mem);
    } else if iovs != [] {
      LocalWrites(iovs[1..], holes, mem);
      assert ops[1..] == Merge(iovs[1..], holes, 0, mem);
    }
  }

  lemma {:induction false} FirstContents(iovs: seq<Iovec>, mem: nat -> Page)
    ensures iovs == [] ==> Contents(mem, Expand(iovs)) == []
    ensures iovs != [] ==>
              Contents(mem, Expand(iovs))
              == Contents(mem, Range(iovs[0].base, iovs[0].len)) + Contents(mem, Expand(iovs[1..]))
  {
    if iovs != [] {
      ExpandFirst(iovs);
      ContentsConcat(mem, Range(iovs[0].base, iovs[0].len), Expand(iovs[1..]));
    }
  }

  ghost predicate Ascending(s: seq<nat>) {
    forall i, j :: 0 <= i < j < |s| ==> s[i] < s[j]
  }

  ghost predicate RunsSorted(iovs: seq<Iovec>) {
    forall i, j :: 0 <= i < j < |iovs| ==> iovs[i].End() <= iovs[j].base
  }

  ghost predicate InRuns(iovs: seq<Iovec>, va: nat) {
    exists i :: 0 <= i < |iovs| && iovs[i].base <= va < iovs[i].End()
  }

  lemma InRunsSnoc(init: seq<Iovec>, x: Iovec, va: nat)
    ensures InRuns(init + [x], va) <==> InRuns(init, va) || x.base <= va < x.End()
  {
    var iovs := init + [x];
    if InRuns(init, va) {
      var i :| 0 <= i < |init| && init[i].base <= va < init[i].End();
      assert iovs[i] == init[i];
    }
    assert iovs[|init|] == x;
  }

  lemma {:induction false} RangeMembers(base: nat, len: nat, va: nat)
    ensures va in Range(base, len) <==> base <= va < base + len
  {
    if base <= va < base + len {
      assert Range(base, len)[va - base] == va;
    }
  }

  lemma {:induction false} ExpandMembers(iovs: seq<Iovec>, va: nat)
    ensures va in Expand(iovs) <==> InRuns(iovs, va)
  {
    if iovs != [] {
      hide InRuns;
      var init, x := iovs[..|iovs| - 1], iovs[|iovs| - 1];
      assert iovs == init + [x];
      ExpandMembers(init, va);
      ExpandSnoc(init, x);
      RangeMembers(x.base, x.len, va);
      InRunsSnoc(init, x, va);
    }
  }

  // Ascending pages make sorted, disjoint runs.
  lemma {:induction false} AscendingRuns(iovs: seq<Iovec>)
    requires Runs(iovs) && Ascending(Expand(iovs))
    ensures RunsSorted(iovs)
  {
    if iovs != [] {
      var n := |iovs| - 1;
      var init, x := iovs[..n], iovs[n];
      var e := Expand(init);
      assert forall i :: 0 <= i < |e| ==> Expand(iovs)[i] == e[i];
      AscendingRuns(init);
      forall i | 0 <= i < n
        ensures iovs[i].End() <= x.base
      {
        ExpandMembers(init, iovs[i].End() - 1);
        assert init[i].base <= iovs[i].End() - 1 < init[i].End();
        var k :| 0 <= k < |e| && e[k] == iovs[i].End() - 1;
        assert Expand(iovs)[|e|] == x.base;
      }
      forall i, j | 0 <= i < j < |iovs|
        ensures iovs[i].End() <= iovs[j].base
      {
        if j < n {
          assert init[i].End() <= init[j].base;
        }
      }
    }
  }

  // Runs and holes do not share a page.
  ghost predicate Apart(iovs: seq<Iovec>, holes: seq<Iovec>) {
    forall i, j :: 0 <= i < |iovs| && 0 <= j < |holes| ==>
      iovs[i].End() <= holes[j].base || holes[j].End() <= iovs[i].base
  }

  // The merged pagemap has the runs and the holes, each page once.
  lemma {:induction false} MergedHas(iovs: seq<Iovec>, holes: seq<Iovec>, e: Entry)
    ensures e in Merged(iovs, holes) <==> Iovec(e.vaddr, e.nrPages) in if e.inParent then holes else iovs
    decreases |iovs| + |holes|
  {
    if holes != [] && (iovs == [] || holes[0].base < iovs[0].base) {
      MergedHas(iovs, holes[1..], e);
      assert holes == [holes[0]] + holes[1..];
    } else if iovs != [] {
      MergedHas(iovs[1..], holes, e);
      assert iovs == [iovs[0]] + iovs[1..];
    }
  }

  // The runs of a page pipe fit the length of an entry.
  lemma {:induction false} MergedShort(bufs: seq<Buf>, iovs: seq<Iovec>, holes: seq<Iovec>)
    requires BufsOk(bufs, iovs)
    ensures var pm := Merged(iovs, holes); forall k :: 0 <= k < |pm| && !pm[k].inParent ==> pm[k].nrPages < TWO_20
  {
    hide BufsOk;
    var pm := Merged(iovs, holes);
    forall k | 0 <= k < |pm| && !pm[k].inParent
      ensures pm[k].nrPages < TWO_20
    {
      MergedHas(iovs, holes, pm[k]);
      assert pm[k] in pm;
      var i :| 0 <= i < |iovs| && iovs[i] == Iovec(pm[k].vaddr, pm[k].nrPages);
      RunsShort(bufs, iovs, i);
    }
  }

  lemma {:induction false} MergedRuns(iovs: seq<Iovec>, holes: seq<Iovec>)
    requires Runs(iovs) && Runs(holes)
    ensures forall k :: 0 <= k < |Merged(iovs, holes)| ==> Merged(iovs, holes)[k].nrPages > 0
  {
    forall k | 0 <= k < |Merged(iovs, holes)|
      ensures Merged(iovs, holes)[k].nrPages > 0
    {
      var e := Merged(iovs, holes)[k];
      MergedHas(iovs, holes, e);
      assert e in Merged(iovs, holes);
      var l := if e.inParent then holes else iovs;
      var i :| 0 <= i < |l| && l[i] == Iovec(e.vaddr, e.nrPages);
    }
  }

  // Holes next to each other in a pagemap are not next to each other in memory.
  ghost predicate HoleGaps(pm: seq<Entry>) {
    forall k, j :: 0 <= k && j == k + 1 && j < |pm| && pm[k].inParent && pm[j].inParent ==> pm[k].End() != pm[j].vaddr
  }

  lemma {:induction false} MergedGaps(iovs: seq<Iovec>, holes: seq<Iovec>)
    requires Gaps(holes)
    ensures HoleGaps(Merged(iovs, holes))
    decreases |iovs| + |holes|
  {
    if holes != [] && (iovs == [] || holes[0].base < iovs[0].base) {
      MergedGaps(iovs, holes[1..]);
      HoleGapsCons(Entry(holes[0].base, holes[0].len, true), Merged(iovs, holes[1..]));
    } else if iovs != [] {
      MergedGaps(iovs[1..], holes);
      HoleGapsCons(Entry(iovs[0].base, iovs[0].len, false), Merged(iovs[1..], holes));
    }
  }

  lemma HoleGapsCons(e: Entry, pm: seq<Entry>)
    requires HoleGaps(pm) && (e.inParent && pm != [] && pm[0].inParent ==> e.End() != pm[0].vaddr)
    ensures HoleGaps([e] + pm)
  {
    var s := [e] + pm;
    forall k, j | 0 <= k && j == k + 1 && j < |s| && s[k].inParent && s[j].inParent
      ensures s[k].End() != s[j].vaddr
    {
      assert s[j] == pm[j - 1] && (k > 0 ==> s[k] == pm[k - 1]);
    }
  }

  lemma SortedCons(e: Entry, pm: seq<Entry>)
    requires Sorted(pm) && forall x :: x in pm ==> e.End() <= x.vaddr
    ensures Sorted([e] + pm)
  {
    var s := [e] + pm;
    forall i, j | 0 <= i < j < |s|
      ensures s[i].End() <= s[j].vaddr
    {
      assert s[j] == pm[j - 1];
      if i > 0 {
        assert s[i] == pm[i - 1];
      }
    }
  }

  /** Sorted runs and sorted holes that share no page merge into a sorted pagemap. */
  lemma {:induction false} MergedSorted(iovs: seq<Iovec>, holes: seq<Iovec>)
    requires Runs(iovs) && Runs(holes) && RunsSorted(iovs) && RunsSorted(holes) && Apart(iovs, holes)
    ensures Sorted(Merged(iovs, holes))
    decreases |iovs| + |holes|
  {
    if holes != [] && (iovs == [] || holes[0].base < iovs[0].base) {
      MergedSorted(iovs, holes[1..]);
      FirstIsLowest(iovs, holes, Entry(holes[0].base, holes[0].len, true), iovs, holes[1..]);
    } else if iovs != [] {
      MergedSorted(iovs[1..], holes);
      FirstIsLowest(iovs, holes, Entry(iovs[0].base, iovs[0].len, false), iovs[1..], holes);
    }
  }

  lemma {:induction false} FirstIsLowest(iovs: seq<Iovec>, holes: seq<Iovec>, e: Entry, iovs': seq<Iovec>,
                                         holes': seq<Iovec>)
    requires Runs(iovs) && Runs(holes) && RunsSorted(iovs) && RunsSorted(holes) && Apart(iovs, holes)
    requires if e.inParent then
               holes != [] && iovs' == iovs && holes' == holes[1..] && (iovs == [] || holes[0].base < iovs[0].base)
               && e == Entry(holes[0].base, holes[0].len, true)
             else
               iovs != [] && iovs' == iovs[1..] && holes' == holes && (holes == [] || holes[0].base >= iovs[0].base)
               && e == Entry(iovs[0].base, iovs[0].len, false)
    requires Sorted(Merged(iovs', holes'))
    ensures Sorted([e] + Merged(iovs', holes'))
  {
    forall x | x in Merged(iovs', holes')
      ensures e.End() <= x.vaddr
    {
      MergedHas(iovs', holes', x);
      var l := if x.inParent then holes' else iovs';
      var i :| 0 <= i < |l| && l[i] == Iovec(x.vaddr, x.nrPages);
    }
    SortedCons(e, Merged(iovs', holes'));
  }

  // The runs a pagemap stores itself.
  function OwnRuns(pm: seq<Entry>): seq<Iovec> {
    if pm == [] then []
    else (if pm[0].inParent then [] else [Iovec(pm[0].vaddr, pm[0].nrPages)]) + OwnRuns(pm[1..])
  }

  lemma {:induction false} OwnRunsConcat(a: seq<Entry>, b: seq<Entry>)
    ensures OwnRuns(a + b) == OwnRuns(a) + OwnRuns(b)
  {
    if a == [] {
      assert a + b == b;
    } else {
      OwnRunsConcat(a[1..], b);
      var head := if a[0].inParent then [] else [Iovec(a[0].vaddr, a[0].nrPages)];
      assert (a + b)[1..] == a[1..] + b;
      assert OwnRuns(a + b) == head + OwnRuns(a[1..] + b);
      assert head + (OwnRuns(a[1..]) + OwnRuns(b)) == (head + OwnRuns(a[1..])) + OwnRuns(b);
    }
  }

  lemma {:induction false} OwnRunsMerged(iovs: seq<Iovec>, holes: seq<Iovec>)
    ensures OwnRuns(Merged(iovs, holes)) == iovs
    decreases |iovs| + |holes|
  {
    if holes != [] && (iovs == [] || holes[0].base < iovs[0].base) {
      OwnRunsMerged(iovs, holes[1..]);
    } else if iovs != [] {
      OwnRunsMerged(iovs[1..], holes);
      assert iovs == [iovs[0]] + iovs[1..];
    }
  }

  lemma OwnRunsOne(e: Entry)
    ensures OwnRuns([e]) == if e.inParent then [] else [Iovec(e.vaddr, e.nrPages)]
  {
    assert OwnRuns([e][1..]) == [];
  }

  lemma {:induction false} OwnBeforeTotal(pm: seq<Entry>, k: nat)
    requires k <= |pm|
    ensures OwnBefore(pm, k) == Total(OwnRuns(pm[..k]))
    decreases k
  {
    if k > 0 {
      OwnBeforeTotal(pm, k - 1);
      var e, before := pm[k - 1], OwnRuns(pm[..k - 1]);
      assert pm[..k] == pm[..k - 1] + [e];
      OwnRunsConcat(pm[..k - 1], [e]);
      OwnRunsOne(e);
      ExpandSnoc(before, Iovec(e.vaddr, e.nrPages));
      assert before + [] == before;
    }
  }

  // The place of an address in the pages image is its place among the pages of the runs.
  lemma OwnPlace(pm: seq<Entry>, k: nat, va: nat)
    requires k < |pm| && pm[k].Covers(va) && !pm[k].inParent
    ensures var i := OwnBefore(pm, k) + (va - pm[k].vaddr); var e := Expand(OwnRuns(pm)); i < |e| && e[i] == va
  {
    hide Expand, OwnRuns, Total, OwnBefore;
    var run := Iovec(pm[k].vaddr, pm[k].nrPages);
    var before, after := OwnRuns(pm[..k]), OwnRuns(pm[k + 1..]);
    assert pm == pm[..k] + ([pm[k]] + pm[k + 1..]);
    OwnRunsConcat(pm[..k], [pm[k]] + pm[k + 1..]);
    OwnRunsConcat([pm[k]], pm[k + 1..]);
    OwnRunsOne(pm[k]);
    ExpandConcat(before, [run] + after);
    ExpandFirst([run] + after);
    assert ([run] + after)[1..] == after;
    OwnBeforeTotal(pm, k);
    ExpandSize(before);
    assert Range(run.base, run.len)[va - run.base] == va;
  }

  // Which addresses a merged pagemap has, and whether it stores them itself.
  lemma {:induction false} MergedPages(iovs: seq<Iovec>, holes: seq<Iovec>, va: nat)
    ensures HasOwnPage(Merged(iovs, holes), va) <==> InRuns(iovs, va)
    ensures HasPage(Merged(iovs, holes), va) <==> InRuns(iovs, va) || InRuns(holes, va)
  {
    var pm := Merged(iovs, holes);
    if HasPage(pm, va) {
      forall k | 0 <= k < |pm| && pm[k].Covers(va)
        ensures if pm[k].inParent then InRuns(holes, va) else InRuns(iovs, va)
      {
        MergedHas(iovs, holes, pm[k]);
        assert pm[k] in pm;
      }
    }
    if InRuns(iovs, va) {
      var i :| 0 <= i < |iovs| && iovs[i].base <= va < iovs[i].End();
      MergedHas(iovs, holes, Entry(iovs[i].base, iovs[i].len, false));
    }
    if InRuns(holes, va) {
      var i :| 0 <= i < |holes| && holes[i].base <= va < holes[i].End();
      MergedHas(iovs, holes, Entry(holes[i].base, holes[i].len, true));
    }
  }

  lemma RunsApart(iovs: seq<Iovec>, holes: seq<Iovec>)
    requires Runs(iovs) && Runs(holes)
    requires forall va: nat :: !(InRuns(iovs, va) && InRuns(holes, va))
    ensures Apart(iovs, holes)
  {
    forall i, j | 0 <= i < |iovs| && 0 <= j < |holes|
      ensures iovs[i].End() <= holes[j].base || holes[j].End() <= iovs[i].base
    {
      var va := if iovs[i].base <= holes[j].base then holes[j].base else iovs[i].base;
      assert !(InRuns(iovs, va) && InRuns(holes, va));
    }
  }

  /** The images of a dump: the pagemap is sorted and speaks of exactly the pages and holes that were added,
      and every page it stores reads as that page of the memory. */
  lemma {:induction false} DumpedImage(iovs: seq<Iovec>, holes: seq<Iovec>, mem: nat -> Page)
    requires Runs(iovs) && Runs(holes) && Ascending(Expand(iovs)) && Ascending(Expand(holes))
    requires forall va :: va in Expand(iovs) ==> va !in Expand(holes)
    ensures Sorted(Merged(iovs, holes))
    ensures |Expand(iovs)| == OwnBefore(Merged(iovs, holes), |Merged(iovs, holes)|)
  {
    hide Merged, Expand, Sorted, OwnBefore, RunsSorted, OwnRuns, Total, InRuns;
    AscendingRuns(iovs);
    AscendingRuns(holes);
    forall va: nat
      ensures !(InRuns(iovs, va) && InRuns(holes, va))
    {
      ExpandMembers(iovs, va);
      ExpandMembers(holes, va);
    }
    RunsApart(iovs, holes);
    MergedSorted(iovs, holes);
    var pm := Merged(iovs, holes);
    OwnBeforeTotal(pm, |pm|);
    assert pm[..|pm|] == pm;
    OwnRunsMerged(iovs, holes);
    ExpandSize(iovs);
  }

  lemma {:induction false} DumpedPage(iovs: seq<Iovec>, holes: seq<Iovec>, mem: nat -> Page, va: nat)
    requires Sorted(Merged(iovs, holes))
    ensures var pm := Merged(iovs, holes);
            && (HasOwnPage(pm, va) <==> va in Expand(iovs))
            && (HasPage(pm, va) <==> va in Expand(iovs) || va in Expand(holes))
            && (HasOwnPage(pm, va) ==> OwnContent(pm, Contents(mem, Expand(iovs)), va) == Some(mem(va)))
  {
    hide Merged, Expand, Sorted, OwnBefore, OwnRuns, Contents, InRuns, HasPage;
    MergedPages(iovs, holes, va);
    ExpandMembers(iovs, va);
    ExpandMembers(holes, va);
    var pm := Merged(iovs, holes);
    if HasOwnPage(pm, va) {
      var k :| 0 <= k < |pm| && pm[k].Covers(va) && !pm[k].inParent;
      EntryAtUnique(pm, k, va);
      OwnPlace(pm, k, va);
      OwnRunsMerged(iovs, holes);
    }
  }

  // Runs counted from an offset on.
  function Shift(iovs: seq<Iovec>, off: nat): (r: seq<Iovec>)
    requires AllFrom(iovs, off)
    ensures |r| == |iovs| && forall i :: 0 <= i < |iovs| ==> r[i] == Iovec(iovs[i].base - off, iovs[i].len)
  {
    seq(|iovs|, i requires 0 <= i < |iovs| => Iovec(iovs[i].base - off, iovs[i].len))
  }

  // A memory seen from an offset on.
  function MemFrom(mem: nat -> Page, off: nat): nat -> Page {
    (a: nat) => mem(a + off)
  }

  // Writing with an offset is writing runs counted from there.
  lemma {:induction false} MergeShifted(iovs: seq<Iovec>, off: nat, mem: nat -> Page)
    requires AllFrom(iovs, off)
    ensures AllFrom(Shift(iovs, off), 0)
    ensures Merge(iovs, [], off, mem) == Merge(Shift(iovs, off), [], 0, MemFrom(mem, off))
    decreases |iovs|
  {
    hide Contents;
    if iovs != [] {
      MergeShifted(iovs[1..], off, mem);
      assert Shift(iovs, off)[1..] == Shift(iovs[1..], off);
      RunShifted(iovs[0], off, mem);
    }
  }

  lemma RunShifted(iov: Iovec, off: nat, mem: nat -> Page)
    requires off <= iov.base
    ensures RunOp(iov, off, mem) == RunOp(Iovec(iov.base - off, iov.len), 0, MemFrom(mem, off))
  {
    hide Contents, Range;
    var a, b := Range(iov.base, iov.len), Range(iov.base - off, iov.len);
    forall i | 0 <= i < iov.len ensures Contents(mem, a)[i] == Contents(MemFrom(mem, off), b)[i] {
      assert a[i] == b[i] + off;
    }
    assert Contents(mem, a) == Contents(MemFrom(mem, off), b);
  }

  lemma {:induction false} ExpandShifted(iovs: seq<Iovec>, off: nat)
    requires AllFrom(iovs, off)
    ensures |Expand(Shift(iovs, off))| == |Expand(iovs)|
    ensures forall i :: 0 <= i < |Expand(iovs)| ==> Expand(Shift(iovs, off))[i] + off == Expand(iovs)[i]
  {
    if iovs != [] {
      var n := |iovs| - 1;
      ExpandShifted(iovs[..n], off);
      assert Shift(iovs, off)[..n] == Shift(iovs[..n], off);
    }
  }

  lemma {:induction false} ShiftedMembers(iovs: seq<Iovec>, off: nat, va: nat)
    requires AllFrom(iovs, off)
    ensures va in Expand(Shift(iovs, off)) <==> va + off in Expand(iovs)
  {
    hide Expand;
    ExpandShifted(iovs, off);
    var a, b := Expand(Shift(iovs, off)), Expand(iovs);
    if va in a {
      var i :| 0 <= i < |a| && a[i] == va;
      assert b[i] == va + off;
    }
    if va + off in b {
      var i :| 0 <= i < |b| && b[i] == va + off;
      assert a[i] + off == b[i];
    }
  }

  /** The images of runs that are written with an offset: for ascending pages the pagemap is sorted and has an address
      exactly if the page at that distance from the offset was added, and it reads as that page of the memory. */
  lemma {:induction false} DumpedAtOffset(iovs: seq<Iovec>, off: nat, mem: nat -> Page, va: nat)
    requires AllFrom(iovs, off) && Runs(iovs) && Ascending(Expand(iovs))
    ensures var img := ApplyAll(Images([], []), Merge(iovs, [], off, mem));
            && img.Images? && Sorted(img.pagemap) && |img.pages| == OwnBefore(img.pagemap, |img.pagemap|)
            && (forall k :: 0 <= k < |img.pagemap| ==> !img.pagemap[k].inParent && img.pagemap[k].nrPages > 0)
            && (HasPage(img.pagemap, va) <==> va + off in Expand(iovs))
            && (va + off in Expand(iovs) ==> OwnContent(img.pagemap, img.pages, va) == Some(mem(va + off)))
  {
    hide Expand, Merge, ApplyAll, Merged, Sorted, Ascending, Contents, OwnBefore, HasPage, HasOwnPage, OwnContent, Runs;
    var sh, m := Shift(iovs, off), MemFrom(mem, off);
    MergeShifted(iovs, off, mem);
    ShiftedRuns(iovs, off);
    LocalDump(sh, [], m, [], []);
    NoPagesAtAll();
    DumpedImage(sh, [], m);
    DumpedPage(sh, [], m, va);
    ShiftedMembers(iovs, off, va);
    NoHoles(sh);
    MergedRuns(sh, []);
    assert [] + Merged(sh, []) == Merged(sh, []);
    assert [] + Contents(m, Expand(sh)) == Contents(m, Expand(sh));
  }

  lemma NoPagesAtAll()
    ensures Expand([]) == [] && Ascending([]) && Runs([])
  {
  }

  lemma {:induction false} ShiftedRuns(iovs: seq<Iovec>, off: nat)
    requires AllFrom(iovs, off) && Runs(iovs) && Ascending(Expand(iovs))
    ensures Runs(Shift(iovs, off)) && Ascending(Expand(Shift(iovs, off)))
  {
    hide Expand;
    ExpandShifted(iovs, off);
    var a, b := Expand(Shift(iovs, off)), Expand(iovs);
    forall i, j | 0 <= i < j < |a| ensures a[i] < a[j] {
      assert b[i] < b[j] && a[i] + off == b[i] && a[j] + off == b[j];
    }
  }

  lemma {:induction false} NoHoles(iovs: seq<Iovec>)
    ensures forall k :: 0 <= k < |Merged(iovs, [])| ==> !Merged(iovs, [])[k].inParent
  {
    hide Merged;
    var pm := Merged(iovs, []);
    forall k | 0 <= k < |pm| ensures !pm[k].inParent {
      MergedHas(iovs, [], pm[k]);
      assert pm[k] in pm;
    }
  }
}
