/** The page pipe: runs of pages to be dumped, packed into pipes, and runs of pages
    that are left to the parent snapshot (page-pipe.c). */
module PagePipes {
  import opened PageImages

  const UIO_MAXIOV: nat := 1024
  const PP_HOLES_BATCH: nat := 32
  const PIPE_PAGES: nat := 0x8_0000  // fcntl() says the size of a pipe as an int, of less than so many pages

  // A pipe: its iovs are the nrSegs ones from start on in the page pipe's array.
  datatype Buf = Buf(pipeSize: nat, pagesIn: nat, nrSegs: nat, start: nat)

  ghost predicate Runs(iovs: seq<Iovec>) {
    forall i :: 0 <= i < |iovs| ==> iovs[i].len > 0
  }

  // No run goes on where the one before it ends.
  ghost predicate Gaps(iovs: seq<Iovec>) {
    forall i, j :: 0 <= i && j == i + 1 && j < |iovs| ==> iovs[i].End() != iovs[j].base
  }

  // A pipe accounts for the pages of its iovs, and has room for them.
  ghost predicate BufOk(b: Buf, iovs: seq<Iovec>) {
    && |iovs| == b.nrSegs <= UIO_MAXIOV
    && b.pagesIn == Total(iovs) <= b.pipeSize
    && 0 < b.pipeSize < PIPE_PAGES
    && Gaps(iovs)
  }

  // A pipe that can take no more: it is full and cannot be made twice as large, or has as many iovs as it can.
  predicate IsFull(b: Buf, most: nat) {
    (b.pagesIn == b.pipeSize && 2 * b.pipeSize > most) || b.nrSegs == UIO_MAXIOV
  }

  // All pipes but the last are.
  ghost predicate Filled(bufs: seq<Buf>, most: nat) {
    forall k :: 0 <= k < |bufs| - 1 ==> IsFull(bufs[k], most)
  }

  // The pipes divide up the used iovs, in order.
  ghost predicate BufsOk(bufs: seq<Buf>, iovs: seq<Iovec>) {
    if bufs == [] then iovs == []
    else
      var last := bufs[|bufs| - 1];
      && last.start <= |iovs|
      && BufOk(last, iovs[last.start..])
      && BufsOk(bufs[..|bufs| - 1], iovs[..last.start])
  }

  // fcntl(F_SETPIPE_SZ) asked to double a pipe: it makes the pipe at least that large, if pipes may be so large.
  method SetPipeSize(size: nat, most: nat, flaky: bool) returns (ret: int)
    requires most < PIPE_PAGES
    ensures ret < 0 ==> 2 * size > most || flaky
    ensures ret >= 0 ==> 2 * size <= ret < PIPE_PAGES
  {
    ret := *;
    if !(2 * size <= ret < PIPE_PAGES) || 2 * size > most {
      ret := if 2 * size > most || flaky then -1 else 2 * size;
    }
  }

  // pipe() and fcntl(F_GETPIPE_SZ): a new pipe has room for some pages. It fails only if calls may fail.
  method MakePipe(flaky: bool) returns (ok: bool, size: nat)
    ensures 0 < size < PIPE_PAGES
    ensures !flaky ==> ok
  {
    var failed: bool, room: int := *, *;
    ok := !(flaky && failed);
    size := if 0 < room < PIPE_PAGES then room else 1;
  }

  // The used iovs after the last one became a page longer.
  function Longer(iovs: seq<Iovec>): (r: seq<Iovec>)
    requires iovs != []
    ensures |r| == |iovs| && r[..|iovs| - 1] == iovs[..|iovs| - 1]
  {
    var o := iovs[|iovs| - 1];
    iovs[..|iovs| - 1] + [Iovec(o.base, o.len + 1)]
  }

  // Lengthening the last run adds the page behind it.
  lemma {:induction false} ExpandLonger(iovs: seq<Iovec>)
    requires iovs != []
    ensures Expand(Longer(iovs)) == Expand(iovs) + [iovs[|iovs| - 1].End()]
    ensures Total(Longer(iovs)) == Total(iovs) + 1
    ensures Runs(iovs) ==> Runs(Longer(iovs))
  {
    var o, init := iovs[|iovs| - 1], iovs[..|iovs| - 1];
    ExpandSnoc(init, o);
    ExpandSnoc(init, Iovec(o.base, o.len + 1));
    assert iovs == init + [o];
    assert Range(o.base, o.len + 1) == Range(o.base, o.len) + [o.End()];
    assert Expand(init) + (Range(o.base, o.len) + [o.End()]) == (Expand(init) + Range(o.base, o.len)) + [o.End()];
  }

  // A run of one page adds that page.
  lemma {:induction false} ExpandMore(iovs: seq<Iovec>, addr: nat)
    ensures Expand(iovs + [Iovec(addr, 1)]) == Expand(iovs) + [addr]
    ensures Total(iovs + [Iovec(addr, 1)]) == Total(iovs) + 1
    ensures Runs(iovs) ==> Runs(iovs + [Iovec(addr, 1)])
  {
    assert (iovs + [Iovec(addr, 1)])[..|iovs|] == iovs;
    assert Range(addr, 1) == [addr];
  }

  // Both ways of adding a page keep the pipes' accounts.
  lemma {:induction false} BufsLonger(bufs: seq<Buf>, iovs: seq<Iovec>, b: Buf)
    requires BufsOk(bufs, iovs) && bufs != [] && bufs[|bufs| - 1].nrSegs > 0
    requires b == bufs[|bufs| - 1].(pagesIn := bufs[|bufs| - 1].pagesIn + 1) && b.pagesIn <= b.pipeSize
    ensures iovs != [] && BufsOk(bufs[|bufs| - 1 := b], Longer(iovs))
  {
    hide Total, Expand;
    var bufs' := bufs[|bufs| - 1 := b];
    assert bufs'[..|bufs| - 1] == bufs[..|bufs| - 1];
    assert Longer(iovs)[..b.start] == iovs[..b.start];
    assert Longer(iovs)[b.start..] == Longer(iovs[b.start..]);
    ExpandLonger(iovs[b.start..]);
  }

  lemma {:induction false} BufsMore(bufs: seq<Buf>, iovs: seq<Iovec>, addr: nat, b: Buf)
    requires BufsOk(bufs, iovs) && bufs != [] && bufs[|bufs| - 1].nrSegs < UIO_MAXIOV
    requires var o := bufs[|bufs| - 1]; b == o.(nrSegs := o.nrSegs + 1, pagesIn := o.pagesIn + 1)
    requires b.pagesIn <= b.pipeSize && (bufs[|bufs| - 1].nrSegs > 0 && iovs != [] ==> iovs[|iovs| - 1].End() != addr)
    ensures BufsOk(bufs[|bufs| - 1 := b], iovs + [Iovec(addr, 1)])
  {
    hide Total, Expand;
    var bufs' := bufs[|bufs| - 1 := b];
    var more := iovs + [Iovec(addr, 1)];
    assert bufs'[..|bufs| - 1] == bufs[..|bufs| - 1];
    assert more[..b.start] == iovs[..b.start];
    assert more[b.start..] == iovs[b.start..] + [Iovec(addr, 1)];
    ExpandMore(iovs[b.start..], addr);
  }

  // A pipe may grow.
  lemma {:induction false} BufsResized(bufs: seq<Buf>, iovs: seq<Iovec>, size: nat)
    requires BufsOk(bufs, iovs) && bufs != [] && bufs[|bufs| - 1].pipeSize <= size < PIPE_PAGES
    ensures BufsOk(bufs[|bufs| - 1 := bufs[|bufs| - 1].(pipeSize := size)], iovs)
  {
    assert bufs[|bufs| - 1 := bufs[|bufs| - 1].(pipeSize := size)][..|bufs| - 1] == bufs[..|bufs| - 1];
  }

  lemma {:induction false} LenInTotal(iovs: seq<Iovec>, i: nat)
    requires i < |iovs|
    ensures iovs[i].len <= Total(iovs)
    decreases |iovs|
  {
    if i < |iovs| - 1 {
      LenInTotal(iovs[..|iovs| - 1], i);
    }
  }

  /** No run is longer than a pipe can be. */
  lemma {:induction false} RunsShort(bufs: seq<Buf>, iovs: seq<Iovec>, i: nat)
    requires BufsOk(bufs, iovs) && i < |iovs|
    ensures iovs[i].len < PIPE_PAGES
    decreases |bufs|
  {
    var last := bufs[|bufs| - 1];
    if i < last.start {
      RunsShort(bufs[..|bufs| - 1], iovs[..last.start], i);
    } else {
      LenInTotal(iovs[last.start..], i - last.start);
    }
  }

  // How many pieces there are of pages that follow one another.
  function Pieces(pages: seq<nat>): nat {
    var n := |pages|;
    if n == 0 then 0
    else if n == 1 then 1
    else Pieces(pages[..n - 1]) + if pages[n - 1] == pages[n - 2] + 1 then 0 else 1
  }

  // How many pages a pipe has at least that can take no more, if it can be as large as that.
  function Share(most: nat): (n: nat)
    requires 0 < most
    ensures 0 < n <= 1024
  {
    if most < 2048 then (most + 1) / 2 else 1024
  }

  // How many pipes are used up at most by so many pages.
  function UsedUp(n: nat, share: nat): nat
    requires share > 0
  {
    n / share
  }

  // How many runs pages can take: one for each piece, and one more for each pipe that is used up.
  function MostRuns(pages: seq<nat>, most: nat): nat
    requires 0 < most
  {
    Pieces(pages) + UsedUp(|pages|, Share(most))
  }

  lemma {:induction false} PiecesMore(pages: seq<nat>, a: nat)
    ensures Pieces(pages + [a]) ==
            Pieces(pages) + if pages != [] && a == pages[|pages| - 1] + 1 then 0 else 1
  {
    assert (pages + [a])[..|pages|] == pages;
  }

  lemma {:induction false} PiecesConcat(a: seq<nat>, b: seq<nat>)
    ensures Pieces(a + b) <= Pieces(a) + Pieces(b) <= Pieces(a + b) + 1
    ensures a == [] || b == [] ==> Pieces(a) + Pieces(b) == Pieces(a + b)
    decreases |b|
  {
    hide Pieces;
    if b == [] {
      assert a + b == a;
      NoPieces();
    } else if a == [] {
      assert a + b == b;
      NoPieces();
    } else {
      var init, x := b[..|b| - 1], b[|b| - 1];
      PiecesConcat(a, init);
      PiecesMore(a + init, x);
      PiecesMore(init, x);
      assert b == init + [x] && a + b == a + init + [x];
      assert init != [] ==> (a + init)[|a + init| - 1] == init[|init| - 1];
      NoPieces();
    }
  }

  lemma NoPieces()
    ensures Pieces([]) == 0
  {
  }

  // A run that does not go on where the pages end is one more piece.
  lemma {:induction false} PiecesRun(pages: seq<nat>, base: nat, len: nat)
    requires len > 0 && (pages != [] ==> pages[|pages| - 1] + 1 != base)
    ensures Pieces(pages + Range(base, len)) == Pieces(pages) + 1
    decreases len
  {
    hide Pieces, Range;
    var less := Range(base, len - 1);
    RangeMore(base, len);
    PiecesMore(pages + less, base + len - 1);
    assert pages + Range(base, len) == pages + less + [base + len - 1];
    if len == 1 {
      assert pages + less == pages;
    } else {
      PiecesRun(pages, base, len - 1);
    }
  }

  lemma RangeMore(base: nat, len: nat)
    requires len > 0
    ensures Range(base, len) == Range(base, len - 1) + [base + len - 1]
  {
  }

  // Runs that do not touch are the pieces.
  lemma {:induction false} PiecesAreRuns(iovs: seq<Iovec>)
    requires Runs(iovs) && Gaps(iovs)
    ensures Pieces(Expand(iovs)) == |iovs|
    ensures iovs != [] ==> Expand(iovs) != [] && Expand(iovs)[|Expand(iovs)| - 1] + 1 == iovs[|iovs| - 1].End()
  {
    if iovs == [] {
      NoPieces();
    } else {
      hide Pieces;
      var init, x := iovs[..|iovs| - 1], iovs[|iovs| - 1];
      PiecesAreRuns(init);
      assert init != [] ==> init[|init| - 1].End() != x.base;
      PiecesRun(Expand(init), x.base, x.len);
    }
  }

  // There are at least as many runs as pieces.
  lemma {:induction false} PiecesAtMost(iovs: seq<Iovec>)
    requires Runs(iovs)
    ensures Pieces(Expand(iovs)) <= |iovs|
  {
    if iovs == [] {
      NoPieces();
    } else {
      hide Pieces;
      var init, x := iovs[..|iovs| - 1], iovs[|iovs| - 1];
      PiecesAtMost(init);
      PiecesRun([], x.base, x.len);
      assert [] + Range(x.base, x.len) == Range(x.base, x.len);
      NoPieces();
      PiecesConcat(Expand(init), Range(x.base, x.len));
    }
  }

  // Every pipe but one may cost a run.
  lemma {:induction false} RunsByPipes(bufs: seq<Buf>, iovs: seq<Iovec>)
    requires BufsOk(bufs, iovs) && Runs(iovs)
    ensures bufs == [] ==> iovs == []
    ensures bufs != [] ==> |iovs| < Pieces(Expand(iovs)) + |bufs|
    decreases |bufs|
  {
    hide Pieces, Expand;
    if bufs != [] {
      var last := bufs[|bufs| - 1];
      var init, part := iovs[..last.start], iovs[last.start..];
      RunsByPipes(bufs[..|bufs| - 1], init);
      PiecesAreRuns(part);
      ExpandConcat(init, part);
      PiecesConcat(Expand(init), Expand(part));
      assert iovs == init + part;
      NoPages();
    }
  }

  lemma NoPages()
    ensures Expand([]) == [] && Total([]) == 0
  {
  }

  lemma {:induction false} AtLeastOnePage(iovs: seq<Iovec>)
    requires Runs(iovs)
    ensures |iovs| <= Total(iovs)
  {
    if iovs != [] {
      AtLeastOnePage(iovs[..|iovs| - 1]);
    }
  }

  // Pipes that are used up hold so many pages.
  lemma {:induction false} PagesByPipes(bufs: seq<Buf>, iovs: seq<Iovec>, most: nat, n: nat)
    requires BufsOk(bufs, iovs) && Runs(iovs) && 2 * n <= most + 1 && n <= 1024
    requires forall k :: 0 <= k < |bufs| ==> IsFull(bufs[k], most)
    ensures |bufs| * n <= Total(iovs)
    decreases |bufs|
  {
    hide Total;
    if bufs == [] {
      NoPages();
    } else {
      var last := bufs[|bufs| - 1];
      var init, part := iovs[..last.start], iovs[last.start..];
      PagesByPipes(bufs[..|bufs| - 1], init, most, n);
      AtLeastOnePage(part);
      ExpandConcat(init, part);
      assert iovs == init + part;
      assert IsFull(last, most);
      assert |bufs| * n == (|bufs| - 1) * n + n;
    }
  }

  /** A page pipe never has more runs than its pages can take. */
  lemma {:induction false} RunsBound(bufs: seq<Buf>, iovs: seq<Iovec>, most: nat)
    requires BufsOk(bufs, iovs) && bufs != [] && Runs(iovs) && Filled(bufs, most) && 0 < most
    ensures |iovs| <= MostRuns(Expand(iovs), most)
  {
    hide Pieces, Expand, Total, Runs;
    RunsByPipes(bufs, iovs);
    var last := bufs[|bufs| - 1];
    var init, part, n := iovs[..last.start], iovs[last.start..], Share(most);
    RunsPart(iovs, last.start);
    PagesByPipes(bufs[..|bufs| - 1], init, most, n);
    ExpandConcat(init, part);
    ExpandSize(iovs);
    assert iovs == init + part;
    AtMost(|bufs| - 1, n, Total(iovs));
  }

  lemma RunsPart(iovs: seq<Iovec>, k: nat)
    requires Runs(iovs) && k <= |iovs|
    ensures Runs(iovs[..k]) && Runs(iovs[k..])
  {
  }

  lemma AtMost(k: nat, n: nat, total: nat)
    requires n > 0 && k * n <= total
    ensures k <= total / n
  {
    var q := total / n;
    assert total < q * n + n;
    assert (k - q) * n == k * n - q * n < n;
    assert k - q >= 1 ==> (k - q) * n >= 1 * n;
  }

  class PagePipe {
    const flaky: bool      // whether system calls and allocations may fail
    const most: nat        // how many pages a pipe may be made to have room for
    const iovs: array<Iovec>
    var freeIov: nat
    var bufs: seq<Buf>

    var nrHoles: nat
    var holes: seq<Iovec>  // the ones in use

    // The runs in use.
    ghost function Used(): seq<Iovec>
      requires freeIov <= iovs.Length
      reads this, iovs
    {
      iovs[..freeIov]
    }

    ghost predicate Valid()
      reads this, iovs
    {
      && freeIov <= iovs.Length
      && bufs != []
      && BufsOk(bufs, Used())
      && 0 < most < PIPE_PAGES && (flaky || Filled(bufs, most))
      && Runs(Used())
      && |holes| <= nrHoles
      && Runs(holes)
      && Gaps(holes)
    }

    // The pages to be dumped, and the pages left to the parent, in the order they were added.
    ghost function Pages(): seq<nat>
      requires Valid()
      reads this, iovs
    {
      Expand(Used())
    }

    ghost function Holes(): seq<nat>
      reads this
    {
      Expand(holes)
    }

    // Whether an address goes on where the last run of the last pipe ends.
    ghost predicate Continues(addr: nat)
      requires Valid()
      reads this, iovs
    {
      bufs[|bufs| - 1].nrSegs > 0 && freeIov > 0 && iovs[freeIov - 1].End() == addr
    }

    // Adds an empty pipe, when the last one is used up.
    method Grow() returns (ret: int)
      requires Valid() && (flaky || IsFull(bufs[|bufs| - 1], most))
      modifies `bufs
      ensures Valid()
      ensures ret < 0 ==> bufs == old(bufs) && flaky
      ensures ret >= 0 ==> |bufs| == |old(bufs)| + 1 && bufs[|bufs| - 1].nrSegs == 0
    {
      hide Expand, Total, Runs;
      NoPages();
      var ok, size := MakePipe(flaky);
      if !ok {
        return -1;
      }
      bufs := bufs + [Buf(size, 0, 0, freeIov)];
      assert Used()[..freeIov] == Used() && Used()[freeIov..] == [] && bufs[..|bufs| - 1] == old(bufs);
      return 0;
    }

    // Room for one more page in the last pipe, given its account before.
    ghost predicate Room(n: nat, b: Buf)
      reads this
    {
      n == |bufs| - 1 && bufs[n] == b && b.pagesIn < b.pipeSize
    }

    // The last run of the last pipe takes the page behind it.
    method Lengthen(n: nat, b: Buf)
      requires Valid() && Room(n, b) && b.nrSegs != 0
      modifies `bufs, iovs
      ensures Valid() && old(Used()) != []
      ensures Pages() == old(Pages()) + [old(Used()[|Used()| - 1]).End()]
      ensures |bufs| == |old(bufs)|
    {
      hide BufsOk, Expand, Total, Runs;
      ghost var used := Used();
      LastBuf(bufs, used);
      BufsLonger(bufs, used, b.(pagesIn := b.pagesIn + 1));
      ExpandLonger(used);
      var i := b.start + b.nrSegs - 1;
      iovs[i] := Iovec(iovs[i].base, iovs[i].len + 1);
      bufs := bufs[n := b.(pagesIn := b.pagesIn + 1)];
      assert Used() == Longer(used);
    }

    // The last pipe gets a new run of one page.
    method Append(n: nat, b: Buf, addr: nat)
      requires Valid() && Room(n, b) && b.nrSegs < UIO_MAXIOV && freeIov < iovs.Length && !Continues(addr)
      modifies `bufs, `freeIov, iovs
      ensures Valid() && freeIov == old(freeIov) + 1
      ensures Pages() == old(Pages()) + [addr]
      ensures |bufs| == |old(bufs)|
    {
      hide BufsOk, Expand, Total, Runs;
      ghost var used := Used();
      LastBuf(bufs, used);
      BufsMore(bufs, used, addr, b.(nrSegs := b.nrSegs + 1, pagesIn := b.pagesIn + 1));
      ExpandMore(used, addr);
      iovs[b.start + b.nrSegs] := Iovec(addr, 1);
      freeIov := freeIov + 1;
      bufs := bufs[n := b.(nrSegs := b.nrSegs + 1, pagesIn := b.pagesIn + 1)];
      assert Used() == used + [Iovec(addr, 1)];
    }

    // There would be a run more than there are iovs, and the pages can take that many.
    lemma OutOfIovs(n: nat, b: Buf, addr: nat)
      requires Valid() && Room(n, b) && b.nrSegs < UIO_MAXIOV && freeIov == iovs.Length && !Continues(addr) && !flaky
      ensures iovs.Length < MostRuns(Pages() + [addr], most)
    {
      hide BufsOk, Expand, Total, Runs, MostRuns;
      var b' := b.(nrSegs := b.nrSegs + 1, pagesIn := b.pagesIn + 1);
      LastBuf(bufs, Used());
      BufsMore(bufs, Used(), addr, b');
      ExpandMore(Used(), addr);
      RunsBound(bufs[n := b'], Used() + [Iovec(addr, 1)], most);
    }

    /** Adds a page to the last pipe, or asks for another pipe (1) when this one is full and cannot grow
        or has too many runs. A page that continues the last run makes it longer, any other takes a new one.
        Running out of iovs, a BUG in the program, is the error return. */
    method TryAddPage(addr: nat) returns (ret: int)
      requires Valid()
      modifies `freeIov, `bufs, iovs
      ensures Valid() && |bufs| == |old(bufs)|
      ensures Pages() == if ret == 0 then old(Pages()) + [addr] else old(Pages())
      ensures freeIov == old(freeIov) + if ret == 0 && !old(Continues(addr)) then 1 else 0
      ensures ret == 0 || ret == 1 || ret == -1
      ensures ret == 1 ==> old(bufs[|bufs| - 1].nrSegs) != 0 && (flaky || IsFull(bufs[|bufs| - 1], most))
      ensures ret == -1 ==> !old(Continues(addr)) && (flaky || iovs.Length < MostRuns(Pages() + [addr], most))
    {
      hide BufsOk, Expand, Total, Runs, MostRuns;
      var n := |bufs| - 1;
      var b := bufs[n];
      LastBuf(bufs, Used());
      if b.pagesIn == b.pipeSize {
        var r := SetPipeSize(b.pipeSize, most, flaky);
        if r < 0 {
          return 1;
        }
        BufsResized(bufs, Used(), r);
        b := b.(pipeSize := r);
        bufs := bufs[n := b];
      }
      if b.nrSegs != 0 {
        if iovs[b.start + b.nrSegs - 1].End() == addr {
          Lengthen(n, b);
          return 0;
        }
        if b.nrSegs == UIO_MAXIOV {
          return 1;
        }
      }
      if freeIov == iovs.Length {
        if !flaky {
          OutOfIovs(n, b, addr);
        }
        return -1;
      }
      Append(n, b, addr);
      return 0;
    }

    /** Adds a page to be dumped, in a new pipe if need be. A new run is taken only for a page that does not continue
        the last one, or for a new pipe. It fails only for lack of a pipe, or if the pages take more runs than there
        are iovs. */
    method AddPage(addr: nat) returns (ret: int)
      requires Valid()
      modifies `freeIov, `bufs, iovs
      ensures Valid() && (ret == 0 || ret == -1)
      ensures ret == -1 ==> flaky || iovs.Length < MostRuns(Pages() + [addr], most)
      ensures Pages() == if ret == 0 then old(Pages()) + [addr] else old(Pages())
      ensures old(freeIov) <= freeIov <= old(freeIov) + 1
      ensures freeIov == old(freeIov) + 1 ==> !old(Continues(addr)) || |bufs| == |old(bufs)| + 1
    {
      hide BufsOk, Expand, Total, Runs, MostRuns;
      ret := TryAddPage(addr);
      if ret <= 0 {
        return ret;
      }
      ret := Grow();
      if ret < 0 {
        return -1;
      }
      ret := TryAddPage(addr);
    }

    /** Adds a page that is left to the parent snapshot. */
    method AddHole(addr: nat) returns (ret: int)
      requires Valid()
      modifies `nrHoles, `holes
      ensures Valid() && (ret == 0 || ret == -1) && (ret == -1 ==> flaky)
      ensures Holes() == if ret == 0 then old(Holes()) + [addr] else old(Holes())
    {
      hide BufsOk, Expand, Total, Runs;
      if |holes| >= nrHoles {
        var enough: bool := *;
        if flaky && !enough {
          return -1;
        }
        nrHoles := nrHoles + PP_HOLES_BATCH;
      }
      if holes != [] {
        var iov := holes[|holes| - 1];
        if iov.End() == addr {
          ExpandLonger(holes);
          holes := holes[|holes| - 1 := Iovec(iov.base, iov.len + 1)];
          assert holes == Longer(old(holes));
          return 0;
        }
      }
      ExpandMore(holes, addr);
      holes := holes + [Iovec(addr, 1)];
      return 0;
    }

    /** An empty page pipe with one pipe in it. */
    constructor (iovs: array<Iovec>, size: nat, most: nat, flaky: bool)
      requires 0 < most < PIPE_PAGES && 0 < size < PIPE_PAGES
      ensures Valid() && Pages() == [] && Holes() == []
      ensures this.iovs == iovs && this.flaky == flaky && this.most == most && freeIov == 0 && holes == []
    {
      this.iovs, this.flaky, this.most := iovs, flaky, most;
      freeIov := 0;
      bufs := [Buf(size, 0, 0, 0)];
      nrHoles := 0;
      holes := [];
    }
  }

  // The last pipe has the last iovs.
  lemma {:induction false} LastBuf(bufs: seq<Buf>, iovs: seq<Iovec>)
    requires BufsOk(bufs, iovs) && bufs != []
    ensures var b := bufs[|bufs| - 1];
      b.start + b.nrSegs == |iovs| && b.pagesIn <= b.pipeSize && 0 < b.pipeSize && b.nrSegs <= UIO_MAXIOV
    ensures var b := bufs[|bufs| - 1]; b.nrSegs == 0 ==> b.pagesIn == 0
  {
  }
}
