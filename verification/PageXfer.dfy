/** Writing a page pipe out, into local images or to a page server (page-xfer.c). */
module PageXfers {
  import opened Options
  import opened PageImages
  import opened PagePipes
  import opened PageServerWire

  // Where pages go: the two images of a task, or the socket of a page server.
  datatype Sink =
    | Images(pagemap: seq<Entry>, pages: seq<Page>)
    | Socket(dst: nat, stream: seq<Byte>)

  // What a dump amounts to: runs with their pages, and runs left to the parent.
  datatype Op =
    | Run(iov: Iovec, content: seq<Page>)
    | Hole(iov: Iovec)

  function AfterPagemap(s: Sink, iov: Iovec): Sink {
    match s
    case Images(pm, pages) => Images(pm + [Entry(iov.base, iov.len, false)], pages)
    case Socket(dst, stream) => Socket(dst, stream + EncodeMsg(Msg(PS_IOV_ADD, iov.len, iov.base * PAGE_SIZE, dst)))
  }

  function AfterPages(s: Sink, content: seq<Page>): Sink {
    match s
    case Images(pm, pages) => Images(pm, pages + content)
    case Socket(dst, stream) => Socket(dst, stream + PageBytes(content))
  }

  function AfterHole(s: Sink, iov: Iovec): Sink {
    match s
    case Images(pm, pages) => Images(pm + [Entry(iov.base, iov.len, true)], pages)
    case Socket(dst, stream) => Socket(dst, stream + EncodeMsg(Msg(PS_IOV_HOLE, iov.len, iov.base * PAGE_SIZE, dst)))
  }

  function Apply(s: Sink, op: Op): Sink {
    match op
    case Run(iov, content) => AfterPages(AfterPagemap(s, iov), content)
    case Hole(iov) => AfterHole(s, iov)
  }

  function ApplyAll(s: Sink, ops: seq<Op>): Sink
    decreases |ops|
  {
    if ops == [] then s else ApplyAll(Apply(s, ops[0]), ops[1..])
  }

  // How many writes a run or hole takes: one for the entry, and one for the pages if there are any.
  function Writes(op: Op): nat {
    match op
    case Run(_, content) => if content == [] then 1 else 2
    case Hole(_) => 1
  }

  function AllWrites(ops: seq<Op>): nat
    decreases |ops|
  {
    if ops == [] then 0 else Writes(ops[0]) + AllWrites(ops[1..])
  }

  // What has come of a transfer: what was written, and how many more writes succeed if not all do.
  // The first write that fails ends a dump, so that their number says all about failing writes.
  datatype Progress = Progress(sink: Sink, room: Option<int>)

  function Took(room: Option<int>, n: nat): Option<int> {
    if room.None? then None else Some(room.value - n)
  }

  // A sink that goes on where another one stands.
  ghost predicate Grown(a: Sink, b: Sink) {
    match (a, b)
    case (Images(pm, pages), Images(pm', pages')) => pm <= pm' && pages <= pages'
    case (Socket(dst, stream), Socket(dst', stream')) => dst == dst' && stream <= stream'
    case _ => false
  }

  // A sink that stops before it is what it should be.
  ghost predicate CutShort(a: Sink, b: Sink) {
    Grown(a, b) && (a.Images? ==> a != b)
  }

  class PageXfer {
    var sink: Sink
    var room: Option<nat>

    constructor (sink: Sink, room: Option<nat>)
      ensures this.sink == sink && this.room == room
    {
      this.sink, this.room := sink, room;
    }

    ghost function Now(): Progress
      reads this
    {
      Progress(sink, if room.None? then None else Some(room.value))
    }

    // One more write; it fails if there is no room for it.
    method Write() returns (ret: int)
      modifies `room
      ensures ret == if old(room) == Some(0) then -1 else 0
      ensures ret == 0 ==> Now().room == Took(old(Now().room), 1)
      ensures ret != 0 ==> room == old(room)
    {
      if room == Some(0) {
        return -1;
      }
      if room.Some? {
        room := Some(room.value - 1);
      }
      return 0;
    }

    method WritePagemap(iov: Iovec) returns (ret: int)
      modifies this
      ensures ret == if old(room) == Some(0) then -1 else 0
      ensures ret == 0 ==> Now() == Progress(AfterPagemap(old(sink), iov), Took(old(Now().room), 1))
      ensures ret != 0 ==> Now() == old(Now())
    {
      ret := Write();
      if ret == 0 {
        sink := AfterPagemap(sink, iov);
      }
    }

    // A write of pages that fails may have written some of them.
    method WritePages(content: seq<Page>) returns (ret: int)
      modifies this
      ensures ret == if content != [] && old(room) == Some(0) then -1 else 0
      ensures ret == 0 ==>
                Now() == Progress(AfterPages(old(sink), content), Took(old(Now().room), if content == [] then 0 else 1))
      ensures ret != 0 ==> exists n: nat :: n < |content| && sink == AfterPages(old(sink), content[..n])
    {
      ret := 0;
      if content != [] {
        ret := Write();
      }
      var n: int := *;
      if ret == 0 {
        n := |content|;
      } else if !(0 <= n < |content|) {
        n := 0;
      }
      assert content[..|content|] == content;
      sink := AfterPages(sink, content[..n]);
    }

    method WriteHole(iov: Iovec) returns (ret: int)
      modifies this
      ensures ret == if old(room) == Some(0) then -1 else 0
      ensures ret == 0 ==> Now() == Progress(AfterHole(old(sink), iov), Took(old(Now().room), 1))
      ensures ret != 0 ==> Now() == old(Now())
    {
      ret := Write();
      if ret == 0 {
        sink := AfterHole(sink, iov);
      }
    }
  }

  ghost predicate AllFrom(iovs: seq<Iovec>, off: nat) {
    forall i :: 0 <= i < |iovs| ==> off <= iovs[i].base
  }

  /** The two lists of runs merged: a hole goes before the first run that starts after it. */
  ghost function Merge(iovs: seq<Iovec>, holes: seq<Iovec>, off: nat, mem: nat -> Page): seq<Op>
    requires AllFrom(iovs, off)
    decreases |iovs| + |holes|
  {
    if holes != [] && (iovs == [] || holes[0].base < iovs[0].base) then
      [Hole(holes[0])] + Merge(iovs, holes[1..], off, mem)
    else if iovs != [] then
      [RunOp(iovs[0], off, mem)] + Merge(iovs[1..], holes, off, mem)
    else
      []
  }

  function RunOp(iov: Iovec, off: nat, mem: nat -> Page): Op
    requires off <= iov.base
  {
    Run(Iovec(iov.base - off, iov.len), Contents(mem, Range(iov.base, iov.len)))
  }

  // Every pipe holds the pages of its iovs.
  ghost predicate PipesHold(bufs: seq<Buf>, iovs: seq<Iovec>, pipes: seq<seq<Page>>, mem: nat -> Page) {
    && |pipes| == |bufs|
    && forall j :: 0 <= j < |bufs| ==>
         && bufs[j].start + bufs[j].nrSegs <= |iovs|
         && pipes[j] == Contents(mem, Expand(iovs[bufs[j].start..bufs[j].start + bufs[j].nrSegs]))
  }

  // Where a pipe's iovs start: at the end of those of the pipe before it.
  function StartOf(bufs: seq<Buf>, j: nat, total: nat): nat
    requires j <= |bufs|
  {
    if j == |bufs| then total else bufs[j].start
  }

  // The pipes' iovs follow one another without a gap.
  lemma {:induction false} BufsContiguous(bufs: seq<Buf>, iovs: seq<Iovec>, j: nat)
    requires BufsOk(bufs, iovs) && j <= |bufs|
    ensures StartOf(bufs, 0, |iovs|) == 0
    ensures j < |bufs| ==>
              && bufs[j].start + bufs[j].nrSegs == StartOf(bufs, j + 1, |iovs|) <= |iovs|
              && bufs[j].pagesIn == Total(iovs[bufs[j].start..bufs[j].start + bufs[j].nrSegs])
  {
    if bufs != [] {
      var n := |bufs| - 1;
      var last := bufs[n];
      var init := iovs[..last.start];
      BufsContiguous(bufs[..n], init, if j < n then j else 0);
      if j == n {
        assert iovs[last.start..last.start + last.nrSegs] == iovs[last.start..];
      } else if j < n {
        var b := bufs[j];
        assert b.start + b.nrSegs == StartOf(bufs[..n], j + 1, |init|);
        assert init[b.start..b.start + b.nrSegs] == iovs[b.start..b.start + b.nrSegs];
      }
    }
  }

  // Where a transfer ends up once the rest of the runs and holes are written, if there is room; if not, how much
  // is lacking.
  ghost function Finish(x: Progress, iovs: seq<Iovec>, holes: seq<Iovec>, off: nat, mem: nat -> Page): Progress
    requires AllFrom(iovs, off)
  {
    var ops := Merge(iovs, holes, off, mem);
    Progress(ApplyAll(x.sink, ops), Took(x.room, AllWrites(ops)))
  }

  lemma FinishHole(x: Progress, iovs: seq<Iovec>, holes: seq<Iovec>, h: nat, off: nat, mem: nat -> Page)
    requires AllFrom(iovs, off)
    requires h < |holes| && (iovs == [] || holes[h].base < iovs[0].base)
    ensures Finish(x, iovs, holes[h..], off, mem)
            == Finish(Progress(AfterHole(x.sink, holes[h]), Took(x.room, 1)), iovs, holes[h + 1..], off, mem)
  {
    assert holes[h..][1..] == holes[h + 1..];
    var ops := Merge(iovs, holes[h + 1..], off, mem);
    assert ([Hole(holes[h])] + ops)[1..] == ops;
  }

  // A transfer after one more run.
  function AfterRun(x: Progress, op: Op): Progress
    requires op.Run?
  {
    Progress(Apply(x.sink, op), Took(x.room, Writes(op)))
  }

  lemma FinishRun(x: Progress, iovs: seq<Iovec>, g: nat, holes: seq<Iovec>, off: nat, mem: nat -> Page)
    requires AllFrom(iovs, off) && g < |iovs|
    requires holes == [] || holes[0].base >= iovs[g].base
    ensures Finish(x, iovs[g..], holes, off, mem)
            == Finish(AfterRun(x, RunOp(iovs[g], off, mem)), iovs[g + 1..], holes, off, mem)
  {
    hide Contents, Apply, Writes;
    assert iovs[g..][1..] == iovs[g + 1..];
    var ops := Merge(iovs[g + 1..], holes, off, mem);
    assert ([RunOp(iovs[g], off, mem)] + ops)[1..] == ops;
  }

  lemma {:induction false} ApplyGrows(s: Sink, ops: seq<Op>)
    ensures Grown(s, ApplyAll(s, ops))
    decreases |ops|
  {
    hide EncodeMsg, PageBytes;
    if ops != [] {
      ApplyGrows(Apply(s, ops[0]), ops[1..]);
      GrownTwice(s, Apply(s, ops[0]), ApplyAll(s, ops));
    }
  }

  lemma GrownTwice(a: Sink, b: Sink, c: Sink)
    requires Grown(a, b) && Grown(b, c)
    ensures Grown(a, c) && (CutShort(a, b) ==> CutShort(a, c))
  {
  }

  // A transfer that stops at some write has not done it all, and had too little room.
  ghost predicate Stuck(now: Sink, end: Progress) {
    CutShort(now, end.sink) && end.room.Some? && end.room.value < 0
  }

  // It stops short of something that the rest goes on from.
  lemma StuckBefore(now: Sink, x: Progress, iovs: seq<Iovec>, holes: seq<Iovec>, off: nat, mem: nat -> Page)
    requires AllFrom(iovs, off) && CutShort(now, x.sink) && x.room.Some? && x.room.value < 0
    ensures Stuck(now, Finish(x, iovs, holes, off, mem))
  {
    hide ApplyAll, Grown, Merge, AllWrites;
    ApplyGrows(x.sink, Merge(iovs, holes, off, mem));
    GrownTwice(now, x.sink, ApplyAll(x.sink, Merge(iovs, holes, off, mem)));
  }

  // What each of the three writes leaves when it fails.
  lemma CutShortSteps(s: Sink, op: Op, n: nat)
    ensures op.Hole? ==> CutShort(s, Apply(s, op))
    ensures op.Run? ==> CutShort(s, Apply(s, op))
    ensures op.Run? && n < |op.content| ==>
              CutShort(AfterPages(AfterPagemap(s, op.iov), op.content[..n]), Apply(s, op))
  {
    hide EncodeMsg, PageBytes;
    if op.Run? && n < |op.content| {
      assert op.content == op.content[..n] + op.content[n..];
      PageBytesSplit(op.content, n);
    }
  }

  lemma {:induction false} PageBytesSplit(pages: seq<Page>, n: nat)
    requires n <= |pages|
    ensures PageBytes(pages[..n]) <= PageBytes(pages)
    decreases |pages|
  {
    if n == |pages| {
      assert pages[..n] == pages;
    } else {
      var init := pages[..|pages| - 1];
      PageBytesSplit(init, n);
      assert init[..n] == pages[..n];
    }
  }

  // The pages at the head of a pipe belong to the first of its iovs.
  lemma PipeHead(mem: nat -> Page, iovs: seq<Iovec>, g: nat, end: nat)
    requires g < end <= |iovs|
    ensures var c := Contents(mem, Expand(iovs[g..end])); var len := iovs[g].len;
            && len <= |c|
            && c[..len] == Contents(mem, Range(iovs[g].base, len))
            && c[len..] == Contents(mem, Expand(iovs[g + 1..end]))
  {
    ExpandFirst(iovs[g..end]);
    assert iovs[g..end][1..] == iovs[g + 1..end];
    ContentsConcat(mem, Range(iovs[g].base, iovs[g].len), Expand(iovs[g + 1..end]));
  }

  // Nothing is written where there is no room at all.
  ghost predicate Untouched(was: Progress, now: Progress) {
    was.room == Some(0) ==> now == was
  }

  // Writes the holes that start below an address, or all that are left.
  method DumpHoles(xfer: PageXfer, holes: seq<Iovec>, from: nat, below: Option<nat>,
                   ghost iovs: seq<Iovec>, ghost off: nat, ghost mem: nat -> Page)
    returns (ret: int, hole: nat)
    requires from <= |holes| && AllFrom(iovs, off)
    requires below == if iovs == [] then None else Some(iovs[0].base)
    modifies xfer
    ensures Untouched(old(xfer.Now()), xfer.Now())
    ensures ret == 0 ==>
              && from <= hole <= |holes|
              && (hole < |holes| ==> below.Some? && holes[hole].base >= below.value)
              && Finish(xfer.Now(), iovs, holes[hole..], off, mem)
                 == Finish(old(xfer.Now()), iovs, holes[from..], off, mem)
    ensures ret == 0 || (ret == -1 && Stuck(xfer.sink, Finish(old(xfer.Now()), iovs, holes[from..], off, mem)))
  {
    hide Finish, Stuck;
    hole := from;
    while hole < |holes| && (below.None? || holes[hole].base < below.value)
      invariant from <= hole <= |holes| && Untouched(old(xfer.Now()), xfer.Now())
      invariant Finish(xfer.Now(), iovs, holes[hole..], off, mem)
                == Finish(old(xfer.Now()), iovs, holes[from..], off, mem)
    {
      ghost var x := xfer.Now();
      FinishHole(x, iovs, holes, hole, off, mem);
      ret := xfer.WriteHole(holes[hole]);
      if ret != 0 {
        CutShortSteps(x.sink, Hole(holes[hole]), 0);
        StuckBefore(x.sink, Progress(AfterHole(x.sink, holes[hole]), Took(x.room, 1)), iovs, holes[hole + 1..],
                    off, mem);
        return -1, hole;
      }
      hole := hole + 1;
    }
    return 0, hole;
  }

  // Writes one run, the entry and the pages.
  method DumpRun(xfer: PageXfer, iov: Iovec, content: seq<Page>, ghost iovs: seq<Iovec>, ghost g: nat,
                 ghost holes: seq<Iovec>, ghost off: nat, ghost mem: nat -> Page) returns (ret: int)
    requires AllFrom(iovs, off) && g < |iovs| && (holes == [] || holes[0].base >= iovs[g].base)
    requires Run(iov, content) == RunOp(iovs[g], off, mem)
    modifies xfer
    ensures Untouched(old(xfer.Now()), xfer.Now())
    ensures ret == 0 ==>
              Finish(xfer.Now(), iovs[g + 1..], holes, off, mem) == Finish(old(xfer.Now()), iovs[g..], holes, off, mem)
    ensures ret == 0 || (ret == -1 && Stuck(xfer.sink, Finish(old(xfer.Now()), iovs[g..], holes, off, mem)))
  {
    hide Finish, Stuck, RunOp, Contents, CutShort;
    ghost var x, op := xfer.Now(), Run(iov, content);
    FinishRun(x, iovs, g, holes, off, mem);
    ghost var x' := AfterRun(x, op);
    CutShortSteps(x.sink, op, 0);
    ret := xfer.WritePagemap(iov);
    if ret != 0 {
      StuckBefore(xfer.sink, x', iovs[g + 1..], holes, off, mem);
      return -1;
    }
    ret := xfer.WritePages(content);
    if ret != 0 {
      ghost var n: nat :| n < |content| && xfer.sink == AfterPages(AfterPagemap(x.sink, iov), content[..n]);
      CutShortSteps(x.sink, op, n);
      StuckBefore(xfer.sink, x', iovs[g + 1..], holes, off, mem);
      return -1;
    }
  }

  // Writes the runs of one pipe, each after the holes that start before it.
  method DumpBuf(xfer: PageXfer, pp: PagePipe, b: Buf, content: seq<Page>, from: nat, off: nat,
                 ghost iv: seq<Iovec>, ghost mem: nat -> Page)
    returns (ret: int, hole: nat)
    requires b.start + b.nrSegs <= |iv| <= pp.iovs.Length && AllFrom(iv, off) && from <= |pp.holes|
    requires forall k :: b.start <= k < |iv| ==> pp.iovs[k] == iv[k]
    requires content == Contents(mem, Expand(iv[b.start..b.start + b.nrSegs]))
    modifies xfer, pp.iovs
    ensures Untouched(old(xfer.Now()), xfer.Now())
    ensures ret == 0 ==>
              && hole <= |pp.holes|
              && (forall k :: b.start + b.nrSegs <= k < |iv| ==> pp.iovs[k] == iv[k])
              && Finish(xfer.Now(), iv[b.start + b.nrSegs..], pp.holes[hole..], off, mem)
                 == Finish(old(xfer.Now()), iv[b.start..], pp.holes[from..], off, mem)
    ensures ret == 0 ||
            (ret == -1 && Stuck(xfer.sink, Finish(old(xfer.Now()), iv[b.start..], pp.holes[from..], off, mem)))
  {
    hide Finish, Contents, Expand, Stuck;
    var i, pipe := 0, content;
    hole := from;
    while i < b.nrSegs
      invariant i <= b.nrSegs && hole <= |pp.holes| && Untouched(old(xfer.Now()), xfer.Now())
      invariant forall k :: b.start + i <= k < |iv| ==> pp.iovs[k] == iv[k]
      invariant Finish(xfer.Now(), iv[b.start + i..], pp.holes[hole..], off, mem)
                == Finish(old(xfer.Now()), iv[b.start..], pp.holes[from..], off, mem)
      invariant pipe == Contents(mem, Expand(iv[b.start + i..b.start + b.nrSegs]))
    {
      ghost var g := b.start + i;
      var iov := pp.iovs[b.start + i];
      ret, hole := DumpHoles(xfer, pp.holes, hole, Some(iov.base), iv[g..], off, mem);
      if ret != 0 {
        return -1, hole;
      }
      PipeHead(mem, iv, g, b.start + b.nrSegs);
      iov := Iovec(iov.base - off, iov.len);
      pp.iovs[b.start + i] := iov;
      ret := DumpRun(xfer, iov, pipe[..iov.len], iv, g, pp.holes[hole..], off, mem);
      if ret != 0 {
        return -1, hole;
      }
      pipe := pipe[iov.len..];
      i := i + 1;
    }
    return 0, hole;
  }

  // Whether so many writes can be made.
  predicate RoomFor(room: Option<nat>, n: nat) {
    room.None? || n <= room.value
  }

  /** Writes out a page pipe whose pipes were filled from a memory: the runs and the holes merged by address,
      each run with the pages of that memory at its addresses. It succeeds exactly if there is room for all writes;
      if not, what is written stops short of that. */
  method DumpPages(xfer: PageXfer, pp: PagePipe, pipes: seq<seq<Page>>, off: nat, ghost mem: nat -> Page)
    returns (ret: int)
    requires pp.Valid() && PipesHold(pp.bufs, pp.Used(), pipes, mem) && AllFrom(pp.Used(), off)
    modifies xfer, pp.iovs
    ensures ret == if RoomFor(old(xfer.room), AllWrites(Merge(old(pp.Used()), pp.holes, off, mem))) then 0 else -1
    ensures ret == 0 ==> xfer.sink == ApplyAll(old(xfer.sink), Merge(old(pp.Used()), pp.holes, off, mem))
    ensures ret != 0 ==> CutShort(xfer.sink, ApplyAll(old(xfer.sink), Merge(old(pp.Used()), pp.holes, off, mem)))
    ensures old(xfer.room) == Some(0) ==> xfer.sink == old(xfer.sink)
  {
    hide Expand, Contents, BufsOk, Finish, Stuck, Merge, ApplyAll, AllWrites, Filled, Gaps, Runs, CutShort;
    ghost var iv, x := pp.Used(), xfer.Now();
    BufsContiguous(pp.bufs, iv, 0);
    assert iv[0..] == iv && pp.holes[0..] == pp.holes;
    FinishDone(x, x, iv, pp.holes, off, mem);
    var j, hole: nat := 0, 0;
    while j < |pp.bufs|
      invariant j <= |pp.bufs| && hole <= |pp.holes| && Untouched(x, xfer.Now())
      invariant StartOf(pp.bufs, j, |iv|) <= |iv|
      invariant forall k :: StartOf(pp.bufs, j, |iv|) <= k < |iv| ==> pp.iovs[k] == iv[k]
      invariant Finish(xfer.Now(), iv[StartOf(pp.bufs, j, |iv|)..], pp.holes[hole..], off, mem)
                == Finish(x, iv, pp.holes, off, mem)
    {
      BufsContiguous(pp.bufs, iv, j);
      ret, hole := DumpBuf(xfer, pp, pp.bufs[j], pipes[j], hole, off, iv, mem);
      if ret != 0 {
        StuckMeans(xfer.sink, x, iv, pp.holes, off, mem);
        return -1;
      }
      j := j + 1;
    }
    assert iv[|iv|..] == [];
    ret, hole := DumpHoles(xfer, pp.holes, hole, None, [], off, mem);
    if ret != 0 {
      StuckMeans(xfer.sink, x, iv, pp.holes, off, mem);
      return -1;
    }
    assert pp.holes[|pp.holes|..] == [];
    FinishDone(x, xfer.Now(), iv, pp.holes, off, mem);
  }

  lemma {:induction false} FinishDone(x: Progress, now: Progress, iovs: seq<Iovec>, holes: seq<Iovec>, off: nat,
                                      mem: nat -> Page)
    requires AllFrom(iovs, off)
    ensures Finish(now, [], [], off, mem) == now
    ensures var ops := Merge(iovs, holes, off, mem);
            Finish(x, iovs, holes, off, mem) == Progress(ApplyAll(x.sink, ops), Took(x.room, AllWrites(ops)))
  {
  }

  lemma {:induction false} StuckMeans(now: Sink, x: Progress, iovs: seq<Iovec>, holes: seq<Iovec>, off: nat,
                                      mem: nat -> Page)
    requires AllFrom(iovs, off) && Stuck(now, Finish(x, iovs, holes, off, mem))
    ensures var ops := Merge(iovs, holes, off, mem);
            CutShort(now, ApplyAll(x.sink, ops)) && x.room.Some? && x.room.value < AllWrites(ops)
  {
  }
}
