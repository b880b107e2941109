/** A page pipe dumped over the network: what the page server ends up with is what a local dump writes
    (page_xfer_dump_pages with either back end, page-xfer.c). */
module RemoteDump {
  import opened Options
  import opened PageImages
  import opened PagePipes
  import opened PageServerWire
  import opened PageXfers
  import opened PageServers
  import opened DumpImages

  // Runs that the server understands.
  ghost predicate OnWire(iovs: seq<Iovec>) {
    forall i :: 0 <= i < |iovs| ==> iovs[i].len < TWO_20 && iovs[i].base * PAGE_SIZE < TWO_64
  }

  // All pages of a memory have the size of a page.
  ghost predicate WholePages(mem: nat -> Page) {
    forall a :: |mem(a).bytes| == PAGE_SIZE
  }

  ghost predicate AllSendable(ops: seq<Op>) {
    forall i :: 0 <= i < |ops| ==> Sendable(ops[i])
  }

  // What a page pipe is written out as can be sent.
  lemma {:induction false} MergeSendable(iovs: seq<Iovec>, holes: seq<Iovec>, off: nat, mem: nat -> Page)
    requires AllFrom(iovs, off) && OnWire(iovs) && OnWire(holes) && WholePages(mem)
    ensures AllSendable(Merge(iovs, holes, off, mem))
    decreases |iovs| + |holes|
  {
    hide AllSendable, RunOp, WholePages;
    if holes != [] && (iovs == [] || holes[0].base < iovs[0].base) {
      HoleSendable(holes[0]);
      MergeSendable(iovs, holes[1..], off, mem);
      OneMore(Hole(holes[0]), Merge(iovs, holes[1..], off, mem));
    } else if iovs != [] {
      RunSendable(iovs[0], off, mem);
      MergeSendable(iovs[1..], holes, off, mem);
      OneMore(RunOp(iovs[0], off, mem), Merge(iovs[1..], holes, off, mem));
    } else {
      NoneToSend();
    }
  }

  lemma NoneToSend()
    ensures AllSendable([])
  {
  }

  lemma OneMore(op: Op, ops: seq<Op>)
    requires Sendable(op) && AllSendable(ops)
    ensures AllSendable([op] + ops)
  {
  }

  lemma HoleSendable(iov: Iovec)
    requires iov.len < TWO_20 && iov.base * PAGE_SIZE < TWO_64
    ensures Sendable(Hole(iov))
  {
  }

  lemma RunSendable(iov: Iovec, off: nat, mem: nat -> Page)
    requires off <= iov.base && iov.len < TWO_20 && iov.base * PAGE_SIZE < TWO_64 && WholePages(mem)
    ensures Sendable(RunOp(iov, off, mem))
  {
    var base := iov.base - off;
    assert base * PAGE_SIZE <= iov.base * PAGE_SIZE;
  }

  // A client that dumps one page pipe sends this.
  lemma {:induction false} ClientSends(fdType: nat, id: nat, ops: seq<Op>)
    ensures var r := Request(fdType, id, ops);
      ClientStream([r]) ==
      EncodeMsg(Msg(PS_IOV_OPEN, 0, 0, DstOf(r))) + OpsBytes(DstOf(r), ops) + EncodeMsg(Msg(PS_IOV_FLUSH, 0, 0, 0))
  {
    hide EncodeMsg, OpsBytes;
    var r := Request(fdType, id, ops);
    assert [r][1..] == [];
    assert ClientStream([]) == EncodeMsg(Msg(PS_IOV_FLUSH, 0, 0, 0));
  }

  /** A page pipe is dumped to a page server: open, the runs and holes, and the flush on disconnecting. Whatever pieces
      the bytes arrive in, on success the server has exactly the images that the same dump writes locally, in place of
      any that were there. It fails only if some call fails, or if the client cannot make all its writes. */
  method DumpToServer(ps: PageServer, pp: PagePipe, pipes: seq<seq<Page>>, fdType: nat, id: nat, pipeSize: nat,
                      room: Option<nat>, ghost mem: nat -> Page) returns (ret: int)
    requires pp.Valid() && PipesHold(pp.bufs, pp.Used(), pipes, mem)
    requires OnWire(pp.Used()) && OnWire(pp.holes) && WholePages(mem)
    requires fdType < 256 && id < TWO_56 && pipeSize > 0
    modifies ps, pp.iovs
    ensures ret == 0 ==>
      ps.images == old(ps.images)[(fdType as int, id as int) :=
        File(Merged(old(pp.Used()), pp.holes), PageBytes(Contents(mem, Expand(old(pp.Used())))))]
    ensures ret == 0 ==> RoomFor(room, EntryWrites(Merged(old(pp.Used()), pp.holes)))
    ensures ret == 0 || ps.flaky || !RoomFor(room, EntryWrites(Merged(old(pp.Used()), pp.holes)))
  {
    hide Expand, Contents, BufsOk, Runs, EncodeMsg, ClientStream, Merge, ApplyAll, OpsBytes, PipesHold, Interpret,
         PageBytes, Merged, OnWire, WholePages, AllWrites, EntryWrites;
    ghost var used := pp.Used();
    var dst := EncodePmId(fdType, id);
    var xfer := new PageXfer(Socket(dst, EncodeMsg(Msg(PS_IOV_OPEN, 0, 0, dst))), room);
    AllFromZero(used);
    ghost var ops := Merge(used, pp.holes, 0, mem);
    MergeSendable(used, pp.holes, 0, mem);
    LocalWrites(used, pp.holes, mem);
    ret := DumpPages(xfer, pp, pipes, 0, mem);
    if ret != 0 {
      return -1;
    }
    SocketBytes(dst, EncodeMsg(Msg(PS_IOV_OPEN, 0, 0, dst)), ops);
    ClientSends(fdType, id, ops);
    ServerRefinesLocal([Request(fdType, id, ops)], ps.Now(), false);
    LocalOne(fdType, id, used, pp.holes, mem, ps.images);
    ret := ps.Serve(xfer.sink.stream + EncodeMsg(Msg(PS_IOV_FLUSH, 0, 0, 0)), pipeSize);
  }

  lemma AllFromZero(iovs: seq<Iovec>)
    ensures AllFrom(iovs, 0)
  {
  }

  lemma {:induction false} LocalOne(fdType: nat, id: nat, iovs: seq<Iovec>, holes: seq<Iovec>, mem: nat -> Page,
                                    images: map<Key, File>)
    requires AllFrom(iovs, 0)
    ensures Local([Request(fdType, id, Merge(iovs, holes, 0, mem))], images) ==
      images[(fdType as int, id as int) := File(Merged(iovs, holes), PageBytes(Contents(mem, Expand(iovs))))]
  {
    hide Merge, Expand, Contents, Merged, ApplyAll;
    var r := Request(fdType, id, Merge(iovs, holes, 0, mem));
    assert [r][1..] == [];
    LocalDump(iovs, holes, mem, [], []);
    assert [] + Merged(iovs, holes) == Merged(iovs, holes);
    assert [] + Contents(mem, Expand(iovs)) == Contents(mem, Expand(iovs));
  }
}
