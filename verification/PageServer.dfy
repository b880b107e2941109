/** The page server: the other end of the socket a dump may be written to (page-xfer.c). */
module PageServers {
  import opened Options
  import opened PageImages
  import opened PageServerWire
  import opened PageXfers

  // The images of one task as files; the pages image is a string of bytes here.
  datatype File = File(pagemap: seq<Entry>, bytes: seq<Byte>)

  // Images are named after their type and the id of a task.
  type Key = (int, int)

  function KeyOf(dst: nat): Key {
    (DecodePmType(dst), DecodePmId(dst))
  }

  // The pagemap id that says none was opened yet.
  const NO_DST: nat := TWO_64 - 1

  // The server: the images written so far, the id of the current pagemap, and whether one was opened at all.
  datatype State = State(images: map<Key, File>, cur: nat, open: bool)

  // What was opened last is there; before anything was opened the id says so.
  predicate StateOk(s: State) {
    if s.open then KeyOf(s.cur) in s.images else s.cur == NO_DST
  }

  // How a session ends; flushed says whether its last message was a flush.
  datatype Outcome =
    | Ok(s: State, flushed: bool)
    | Failed
    | Starved  // the stream ends inside the pages of a run

  // Opening creates the images; if they are there they are unlinked first, and what they held is lost.
  function Open(s: State, dst: nat): (r: State)
    ensures StateOk(r) && KeyOf(dst) in r.images
  {
    State(s.images[KeyOf(dst) := File([], [])], dst, true)
  }

  // A message for another pagemap than the current one opens that. The id that says none was opened
  // passes for the current one at the start, with nothing behind it.
  function Prepare(s: State, dst: nat): (r: Option<State>)
    ensures r.Some? ==> KeyOf(dst) in r.value.images
    ensures StateOk(s) ==> (r.None? <==> !s.open && dst == NO_DST)
  {
    if s.cur != dst then Some(Open(s, dst))
    else if s.open && KeyOf(dst) in s.images then Some(s)
    else None
  }

  function Written(s: State, dst: nat, e: Entry, bytes: seq<Byte>): State
    requires KeyOf(dst) in s.images
  {
    var f := s.images[KeyOf(dst)];
    s.(images := s.images[KeyOf(dst) := File(f.pagemap + [e], f.bytes + bytes)])
  }

  // The entry a message is written as, after its length was computed in 32 bits.
  function EntryOf(m: Msg): Entry {
    Entry(m.vaddr / PAGE_SIZE, Length32(m.nrPages) / PAGE_SIZE, m.cmd == PS_IOV_HOLE)
  }

  /** What a stream means to the server, message by message. */
  function Interpret(stream: seq<Byte>, s: State, flushed: bool): Outcome
    decreases |stream|
  {
    if stream == [] then
      Ok(s, flushed)
    else if |stream| < MSG_SIZE then
      Failed
    else
      var m, rest := DecodeMsg(stream[..MSG_SIZE]), stream[MSG_SIZE..];
      if m.cmd == PS_IOV_OPEN then
        Interpret(rest, Open(s, m.dstId), false)
      else if m.cmd == PS_IOV_ADD then
        match Prepare(s, m.dstId)
        case Some(s1) =>
          var n := Length32(m.nrPages);
          if |rest| < n then Starved
          else Interpret(rest[n..], Written(s1, m.dstId, EntryOf(m), rest[..n]), false)
        case None => Failed
      else if m.cmd == PS_IOV_HOLE then
        match Prepare(s, m.dstId)
        case Some(s1) => Interpret(rest, Written(s1, m.dstId, EntryOf(m), []), false)
        case None => Failed
      else if m.cmd == PS_IOV_FLUSH then
        Interpret(rest, s, true)
      else
        Failed
  }

  // The pages image and the number of bytes got after a piece of a run has arrived.
  function AfterChunk(f: File, sk: seq<Byte>, got: nat, chunk: nat): (File, nat)
    requires got + chunk <= |sk|
  {
    (f.(bytes := f.bytes + sk[got..got + chunk]), got + chunk)
  }

  // At the end of a stream that is too short the program gets pieces of no bytes, and nothing ever changes again.
  lemma StarvedStays(f: File, sk: seq<Byte>, got: nat, chunk: nat)
    requires got == |sk| && got + chunk <= |sk|
    ensures AfterChunk(f, sk, got, chunk) == (f, got)
  {
    assert chunk == 0 && sk[got..got + chunk] == [] && f.bytes + [] == f.bytes;
  }

  // read() on the socket: nothing at the end of the stream, else some bytes, or an error.
  // If it is not flaky it does not fail, and gives what there is.
  method ReadSocket(left: nat, flaky: bool) returns (n: int)
    ensures left == 0 ==> n <= 0
    ensures left > 0 ==> n != 0 && n <= left && n <= MSG_SIZE
    ensures !flaky ==> n == if left < MSG_SIZE then left else MSG_SIZE
  {
    n := *;
    if !flaky {
      n := if left < MSG_SIZE then left else MSG_SIZE;
    } else if left == 0 {
      n := if n < 0 then -1 else 0;
    } else if n < 1 || n > left || n > MSG_SIZE {
      n := -1;
    }
  }

  // splice() from the socket into a pipe: some bytes, at most what was asked for, or an error.
  method SpliceSocket(want: nat, flaky: bool) returns (n: int)
    requires want > 0
    ensures (n < 0 && flaky) || 0 < n <= want
  {
    n := *;
    if n == 0 || n > want || (n < 0 && !flaky) {
      n := if flaky then -1 else want;
    }
  }

  class PageServer {
    const flaky: bool  // whether system calls may fail
    var images: map<Key, File>
    var cur: nat
    var open: bool

    constructor (images: map<Key, File>, flaky: bool)
      ensures this.images == images && !open && StateOk(Now()) && this.flaky == flaky
    {
      this.flaky := flaky;
      this.images, cur, open := images, NO_DST, false;
    }

    ghost function Now(): State
      reads this
    {
      State(images, cur, open)
    }

    method OpenXfer(dst: nat) returns (ret: int)
      modifies this
      ensures ret == 0 ==> Now() == old(Open(Now(), dst))
      ensures ret == 0 || flaky
    {
      var failed: bool := *;
      if flaky && failed {
        return -1;
      }
      images := images[KeyOf(dst) := File([], [])];
      cur, open := dst, true;
      return 0;
    }

    method PrepareXfer(dst: nat) returns (ret: int)
      modifies this
      ensures ret == 0 ==> old(Prepare(Now(), dst)) == Some(Now()) && KeyOf(dst) in images
      ensures ret == 0 || flaky || old(Prepare(Now(), dst)).None?
    {
      if cur != dst {
        ret := OpenXfer(dst);
      } else {
        ret := if open && KeyOf(dst) in images then 0 else -1;
      }
    }

    /** Receives a run: however the socket cuts the pages up, they are appended whole and in order. */
    method Add(m: Msg, sk: seq<Byte>, pipeSize: nat) returns (ret: int)
      requires pipeSize > 0 && (Prepare(Now(), m.dstId).Some? ==> Length32(m.nrPages) <= |sk|)
      modifies this
      ensures ret == 0 || flaky || old(Prepare(Now(), m.dstId)).None?
      ensures ret == 0 ==> old(Prepare(Now(), m.dstId)).Some?
      ensures ret == 0 ==>
                Now() == Written(old(Prepare(Now(), m.dstId)).value, m.dstId, EntryOf(m), sk[..Length32(m.nrPages)])
    {
      ret := PrepareXfer(m.dstId);
      if ret != 0 {
        return -1;
      }
      ghost var before := Now();
      var k := KeyOf(m.dstId);
      images := images[k := File(images[k].pagemap + [EntryOf(m)], images[k].bytes)];
      var got, len := 0, Length32(m.nrPages);
      assert images[k].bytes + sk[..got] == images[k].bytes;
      while got < len
        invariant 0 <= got <= len
        invariant Now() == Written(before, m.dstId, EntryOf(m), sk[..got])
      {
        var chunk := len - got;
        if chunk > pipeSize {
          chunk := pipeSize;
        }
        chunk := SpliceSocket(chunk, flaky);
        if chunk < 0 {
          return -1;
        }
        ghost var bytes := before.images[k].bytes;
        assert bytes + sk[..got] + sk[got..got + chunk] == bytes + sk[..got + chunk];
        var (f, n) := AfterChunk(images[k], sk, got, chunk);
        images, got := images[k := f], n;
      }
      return 0;
    }

    method AddHole(m: Msg) returns (ret: int)
      requires m.cmd == PS_IOV_HOLE
      modifies this
      ensures ret == 0 || flaky || old(Prepare(Now(), m.dstId)).None?
      ensures ret == 0 ==> old(Prepare(Now(), m.dstId)).Some?
      ensures ret == 0 ==> Now() == Written(old(Prepare(Now(), m.dstId)).value, m.dstId, EntryOf(m), [])
    {
      ret := PrepareXfer(m.dstId);
      if ret != 0 {
        return -1;
      }
      var k := KeyOf(m.dstId);
      assert images[k].bytes + [] == images[k].bytes;
      images := images[k := File(images[k].pagemap + [EntryOf(m)], images[k].bytes)];
      return 0;
    }

    /** Serves a connection. Success is reported only for a stream that means something whole and ends with
        a flush, and then the images are what the stream means, whatever pieces it arrived in.
        If no call fails it is reported for every such stream. */
    method Serve(sk: seq<Byte>, pipeSize: nat) returns (ret: int)
      requires pipeSize > 0 && !Interpret(sk, Now(), false).Starved?
      modifies this
      ensures ret == 0 ==> old(Interpret(sk, Now(), false)) == Ok(Now(), true)
      ensures !flaky && ret != 0 ==>
                old(Interpret(sk, Now(), false)).Failed? || !old(Interpret(sk, Now(), false)).flushed
    {
      hide Interpret, Open, Prepare, Written;
      ret := -1;
      var flushed, pos := false, 0;
      ghost var end := Interpret(sk, Now(), false);
      assert sk[0..] == sk;
      while true
        invariant 0 <= pos <= |sk|
        invariant end == Interpret(sk[pos..], Now(), flushed)
        decreases |sk| - pos
      {
        ret := ReadSocket(|sk| - pos, flaky);
        ShortStream(sk[pos..], Now(), flushed);
        if ret == 0 {
          StreamEnd(sk[pos..], Now(), flushed);
          break;
        }
        if ret != MSG_SIZE {
          ret := -1;
          break;
        }
        var m := DecodeMsg(sk[pos..pos + MSG_SIZE]);
        OneMessage(sk, pos, m, Now(), flushed);
        pos := pos + MSG_SIZE;
        flushed := false;
        if m.cmd == PS_IOV_OPEN {
          ret := OpenXfer(m.dstId);
        } else if m.cmd == PS_IOV_ADD {
          ret := Add(m, sk[pos..], pipeSize);
          if ret == 0 {
            pos := pos + Length32(m.nrPages);
          }
        } else if m.cmd == PS_IOV_HOLE {
          ret := AddHole(m);
        } else if m.cmd == PS_IOV_FLUSH {
          flushed := true;
          ret := 0;
        } else {
          ret := -1;
        }
        if ret != 0 {
          break;
        }
      }
      if !flushed {
        ret := -1;
      }
    }
  }

  // What is left is too short for a message.
  lemma {:induction false} ShortStream(sk: seq<Byte>, s: State, flushed: bool)
    ensures 0 < |sk| < MSG_SIZE ==> Interpret(sk, s, flushed) == Failed
  {
  }

  lemma {:induction false} StreamEnd(sk: seq<Byte>, s: State, flushed: bool)
    requires sk == []
    ensures Interpret(sk, s, flushed) == Ok(s, flushed)
  {
  }

  // The effect of the next message of a stream.
  lemma {:induction false} OneMessage(sk: seq<Byte>, pos: nat, m: Msg, s: State, flushed: bool)
    requires pos + MSG_SIZE <= |sk| && m == DecodeMsg(sk[pos..pos + MSG_SIZE])
    ensures
      var rest := sk[pos + MSG_SIZE..];
      Interpret(sk[pos..], s, flushed) ==
      if m.cmd == PS_IOV_OPEN then
        Interpret(rest, Open(s, m.dstId), false)
      else if m.cmd == PS_IOV_ADD then
        if Prepare(s, m.dstId).None? then Failed
        else if |rest| < Length32(m.nrPages) then Starved
        else Interpret(sk[pos + MSG_SIZE + Length32(m.nrPages)..],
                       Written(Prepare(s, m.dstId).value, m.dstId, EntryOf(m), rest[..Length32(m.nrPages)]), false)
      else if m.cmd == PS_IOV_HOLE then
        if Prepare(s, m.dstId).None? then Failed
        else Interpret(rest, Written(Prepare(s, m.dstId).value, m.dstId, EntryOf(m), []), false)
      else if m.cmd == PS_IOV_FLUSH then
        Interpret(rest, s, true)
      else
        Failed
  {
    hide Open, Prepare, Written;
    assert sk[pos..][..MSG_SIZE] == sk[pos..pos + MSG_SIZE];
    assert sk[pos..][MSG_SIZE..] == sk[pos + MSG_SIZE..];
    if |sk| - pos - MSG_SIZE >= Length32(m.nrPages) {
      assert sk[pos + MSG_SIZE..][Length32(m.nrPages)..] == sk[pos + MSG_SIZE + Length32(m.nrPages)..];
    }
  }

  /** A session that ends well after a flush has the flush as its last message. */
  lemma {:induction false} FlushIsLast(stream: seq<Byte>, s: State, flushed: bool)
    requires Interpret(stream, s, flushed).Ok? && Interpret(stream, s, flushed).flushed
    ensures stream == [] ==> flushed
    ensures stream != [] ==>
              && |stream| >= MSG_SIZE
              && DecodeMsg(stream[|stream| - MSG_SIZE..]).cmd == PS_IOV_FLUSH
    decreases |stream|
  {
    if stream != [] {
      hide Open, Prepare, Written;
      assert stream[0..] == stream;
      var m := DecodeMsg(stream[0..MSG_SIZE]);
      OneMessage(stream, 0, m, s, flushed);
      var n := MSG_SIZE + if m.cmd == PS_IOV_ADD then Length32(m.nrPages) else 0;
      var rest := stream[n..];
      if m.cmd == PS_IOV_OPEN {
        FlushIsLast(rest, Open(s, m.dstId), false);
      } else if m.cmd == PS_IOV_ADD {
        FlushIsLast(rest, Written(Prepare(s, m.dstId).value, m.dstId, EntryOf(m), stream[MSG_SIZE..][..n - MSG_SIZE]),
                    false);
      } else if m.cmd == PS_IOV_HOLE {
        FlushIsLast(rest, Written(Prepare(s, m.dstId).value, m.dstId, EntryOf(m), []), false);
      } else {
        FlushIsLast(rest, s, true);
      }
      if rest != [] {
        assert rest[|rest| - MSG_SIZE..] == stream[|stream| - MSG_SIZE..];
      } else {
        assert stream[|stream| - MSG_SIZE..] == stream[0..MSG_SIZE];
      }
    }
  }

  // A dump a client sends: open, then the runs and holes.
  datatype Request = Request(fdType: nat, id: nat, ops: seq<Op>)

  function DstOf(r: Request): nat {
    EncodePmId(r.fdType, r.id)
  }

  // What one run or hole is on the wire.
  function OpBytes(dst: nat, op: Op): seq<Byte> {
    match op
    case Run(iov, content) => EncodeMsg(Msg(PS_IOV_ADD, iov.len, iov.base * PAGE_SIZE, dst)) + PageBytes(content)
    case Hole(iov) => EncodeMsg(Msg(PS_IOV_HOLE, iov.len, iov.base * PAGE_SIZE, dst))
  }

  function OpsBytes(dst: nat, ops: seq<Op>): seq<Byte> {
    if ops == [] then [] else OpBytes(dst, ops[0]) + OpsBytes(dst, ops[1..])
  }

  // Everything a client sends, up to the flush on disconnecting.
  function ClientStream(rs: seq<Request>): seq<Byte> {
    if rs == [] then EncodeMsg(Msg(PS_IOV_FLUSH, 0, 0, 0))
    else
      var dst := DstOf(rs[0]);
      EncodeMsg(Msg(PS_IOV_OPEN, 0, 0, dst)) + (OpsBytes(dst, rs[0].ops) + ClientStream(rs[1..]))
  }

  lemma SocketOp(dst: nat, stream: seq<Byte>, op: Op)
    ensures Apply(Socket(dst, stream), op) == Socket(dst, stream + OpBytes(dst, op))
  {
    hide EncodeMsg, PageBytes;
    if op.Run? {
      var head := EncodeMsg(Msg(PS_IOV_ADD, op.iov.len, op.iov.base * PAGE_SIZE, dst));
      assert stream + head + PageBytes(op.content) == stream + (head + PageBytes(op.content));
    }
  }

  // A dump into the socket appends exactly these bytes.
  lemma {:induction false} SocketBytes(dst: nat, stream: seq<Byte>, ops: seq<Op>)
    ensures ApplyAll(Socket(dst, stream), ops) == Socket(dst, stream + OpsBytes(dst, ops))
    decreases |ops|
  {
    hide Apply, OpBytes;
    if ops == [] {
      assert stream + [] == stream;
    } else {
      var first := OpBytes(dst, ops[0]);
      SocketOp(dst, stream, ops[0]);
      SocketBytes(dst, stream + first, ops[1..]);
      assert stream + first + OpsBytes(dst, ops[1..]) == stream + (first + OpsBytes(dst, ops[1..]));
    }
  }

  // What the server understands: runs whose length in bytes fits 32 bits, pages of the right size, as many as the
  // run says, and addresses that fit.
  ghost predicate Sendable(op: Op) {
    && op.iov.len < TWO_20 && WireOk(op)
  }

  // The same without a bound on the length of a run.
  ghost predicate WireOk(op: Op) {
    && op.iov.base * PAGE_SIZE < TWO_64
    && (op.Run? ==> |op.content| == op.iov.len && FullPages(op.content))
  }

  ghost predicate FullPages(pages: seq<Page>) {
    forall i :: 0 <= i < |pages| ==> |pages[i].bytes| == PAGE_SIZE
  }

  ghost predicate SendableRequest(r: Request) {
    r.fdType < 256 && r.id < TWO_56 && forall i :: 0 <= i < |r.ops| ==> Sendable(r.ops[i])
  }

  lemma {:induction false} PageBytesSize(pages: seq<Page>)
    requires FullPages(pages)
    ensures |PageBytes(pages)| == |pages| * PAGE_SIZE
  {
    if pages != [] {
      PageBytesSize(pages[..|pages| - 1]);
    }
  }

  lemma {:induction false} PageBytesConcat(a: seq<Page>, b: seq<Page>)
    ensures PageBytes(a + b) == PageBytes(a) + PageBytes(b)
  {
    if b == [] {
      assert a + b == a;
    } else {
      var init, last := b[..|b| - 1], b[|b| - 1].bytes;
      PageBytesConcat(a, init);
      assert (a + b)[..|a + b| - 1] == a + init;
      assert PageBytes(a + b) == PageBytes(a + init) + last;
      assert PageBytes(a) + (PageBytes(init) + last) == PageBytes(a) + PageBytes(init) + last;
    }
  }

  function FileOf(s: Sink): File
    requires s.Images?
  {
    File(s.pagemap, PageBytes(s.pages))
  }

  // A message is read back from the head of a stream.
  lemma HeadMessage(m: Msg, body: seq<Byte>)
    requires Fits(m)
    ensures var sk := EncodeMsg(m) + body; DecodeMsg(sk[0..MSG_SIZE]) == m && sk[MSG_SIZE..] == body
  {
    hide EncodeMsg, DecodeMsg;
    var sk := EncodeMsg(m) + body;
    assert sk[0..MSG_SIZE] == EncodeMsg(m);
    MsgRoundTrip(m);
  }

  lemma EntryBack(cmd: nat, iov: Iovec, dst: nat)
    ensures EntryOf(Msg(cmd, iov.len, iov.base * PAGE_SIZE, dst))
            == Entry(iov.base, iov.len % TWO_20, cmd == PS_IOV_HOLE)
  {
    LengthFits(iov.len);
  }

  // A run arrives as its entry and the bytes of its pages.
  lemma {:induction false} RunMeans(dst: nat, op: Op, tail: seq<Byte>, s: State, flushed: bool)
    requires Sendable(op) && op.Run? && dst < TWO_64 && s.cur == dst && s.open && KeyOf(dst) in s.images
    ensures Interpret(OpBytes(dst, op) + tail, s, flushed)
            == Interpret(tail, Written(s, dst, Entry(op.iov.base, op.iov.len, false), PageBytes(op.content)), false)
  {
    hide Interpret, EncodeMsg, DecodeMsg, PageBytes, Written, KeyOf, EntryOf;
    var m := Msg(PS_IOV_ADD, op.iov.len, op.iov.base * PAGE_SIZE, dst);
    EntryBack(PS_IOV_ADD, op.iov, dst);
    var bytes := PageBytes(op.content);
    PageBytesSize(op.content);
    LengthFits(op.iov.len);
    var sk := EncodeMsg(m) + (bytes + tail);
    assert OpBytes(dst, op) + tail == sk;
    HeadMessage(m, bytes + tail);
    assert sk[0..] == sk;
    assert sk[MSG_SIZE..][..|bytes|] == bytes;
    assert sk[MSG_SIZE + |bytes|..] == tail;
    OneMessage(sk, 0, m, s, flushed);
  }

  // A hole arrives as its entry, of a length in 32 bits.
  lemma {:induction false} HoleMeans(dst: nat, op: Op, tail: seq<Byte>, s: State, flushed: bool)
    requires WireOk(op) && op.iov.len < TWO_32 && op.Hole? && dst < TWO_64
    requires s.cur == dst && s.open && KeyOf(dst) in s.images
    ensures Interpret(OpBytes(dst, op) + tail, s, flushed)
            == Interpret(tail, Written(s, dst, Entry(op.iov.base, op.iov.len % TWO_20, true), []), false)
  {
    hide Interpret, EncodeMsg, DecodeMsg, PageBytes, Written, KeyOf, EntryOf;
    var m := Msg(PS_IOV_HOLE, op.iov.len, op.iov.base * PAGE_SIZE, dst);
    EntryBack(PS_IOV_HOLE, op.iov, dst);
    HeadMessage(m, tail);
    var sk := EncodeMsg(m) + tail;
    assert sk[0..] == sk;
    OneMessage(sk, 0, m, s, flushed);
  }

  lemma ShortOp(op: Op)
    requires Sendable(op)
    ensures WireOk(op) && op.iov.len < TWO_20
  {
  }

  // The server does with one run or hole what the local images do.
  lemma {:induction false} OpMeans(dst: nat, op: Op, tail: seq<Byte>, s: State, flushed: bool, sink: Sink)
    requires Sendable(op) && dst < TWO_64 && sink.Images?
    requires s.cur == dst && s.open && KeyOf(dst) in s.images && s.images[KeyOf(dst)] == FileOf(sink)
    ensures Apply(sink, op).Images?
    ensures Interpret(OpBytes(dst, op) + tail, s, flushed)
            == Interpret(tail, s.(images := s.images[KeyOf(dst) := FileOf(Apply(sink, op))]), false)
  {
    hide Interpret, OpBytes, PageBytes, KeyOf, Sendable;
    if op.Run? {
      RunMeans(dst, op, tail, s, flushed);
      PageBytesConcat(sink.pages, op.content);
    } else {
      assert WireOk(op) && op.iov.len < TWO_20 by { ShortOp(op); }
      HoleMeans(dst, op, tail, s, flushed);
      assert PageBytes(sink.pages) + [] == PageBytes(sink.pages);
    }
  }

  lemma {:induction false} OpsMean(dst: nat, ops: seq<Op>, tail: seq<Byte>, s: State, flushed: bool, sink: Sink)
    requires (forall i :: 0 <= i < |ops| ==> Sendable(ops[i])) && dst < TWO_64 && sink.Images?
    requires s.cur == dst && s.open && KeyOf(dst) in s.images && s.images[KeyOf(dst)] == FileOf(sink) && !flushed
    ensures ApplyAll(sink, ops).Images?
    ensures Interpret(OpsBytes(dst, ops) + tail, s, flushed)
            == Interpret(tail, s.(images := s.images[KeyOf(dst) := FileOf(ApplyAll(sink, ops))]), false)
    decreases |ops|
  {
    hide Interpret, OpBytes, Sendable, Apply, FileOf;
    if ops == [] {
      assert OpsBytes(dst, ops) + tail == tail;
      assert s.images[KeyOf(dst) := s.images[KeyOf(dst)]] == s.images;
    } else {
      var first, rest := OpBytes(dst, ops[0]), OpsBytes(dst, ops[1..]);
      assert first + rest + tail == first + (rest + tail);
      OpMeans(dst, ops[0], rest + tail, s, flushed, sink);
      var sink' := Apply(sink, ops[0]);
      var s' := s.(images := s.images[KeyOf(dst) := FileOf(sink')]);
      OpsMean(dst, ops[1..], tail, s', false, sink');
      var f := FileOf(ApplyAll(sink, ops));
      assert s'.images[KeyOf(dst) := f] == s.images[KeyOf(dst) := f];
    }
  }

  // The same dumps done locally: each creates its images anew, in place of any that are there.
  ghost function Local(rs: seq<Request>, images: map<Key, File>): map<Key, File> {
    if rs == [] then images
    else
      LocalSink(rs[0].ops);
      Local(rs[1..], images[(rs[0].fdType as int, rs[0].id as int) := FileOf(ApplyAll(Images([], []), rs[0].ops))])
  }

  // What is written to local images are local images.
  lemma {:induction false} LocalSink(ops: seq<Op>)
    ensures ApplyAll(Images([], []), ops).Images?
  {
    ImagesStay(Images([], []), ops);
  }

  lemma {:induction false} ImagesStay(sink: Sink, ops: seq<Op>)
    requires sink.Images?
    ensures ApplyAll(sink, ops).Images?
    decreases |ops|
  {
    if ops != [] {
      ImagesStay(Apply(sink, ops[0]), ops[1..]);
    }
  }

  /** The server is as good as local images: whatever dumps a client sends, the stream means to the server
      the very images the dumps write locally, flushed. */
  lemma {:induction false} ServerRefinesLocal(rs: seq<Request>, s: State, flushed: bool)
    requires forall i :: 0 <= i < |rs| ==> SendableRequest(rs[i])
    ensures var r := Interpret(ClientStream(rs), s, flushed);
            r.Ok? && r.s.images == Local(rs, s.images) && r.flushed
    decreases |rs|
  {
    hide Interpret, EncodeMsg, DecodeMsg, OpsBytes, ApplyAll, Sendable;
    var sk := ClientStream(rs);
    assert sk[0..] == sk;
    if rs == [] {
      var m := Msg(PS_IOV_FLUSH, 0, 0, 0);
      MsgRoundTrip(m);
      assert sk[0..MSG_SIZE] == EncodeMsg(m);
      OneMessage(sk, 0, m, s, flushed);
      StreamEnd(sk[MSG_SIZE..], s, true);
    } else {
      var r, dst := rs[0], DstOf(rs[0]);
      PmIdRoundTrip(r.fdType, r.id);
      var m := Msg(PS_IOV_OPEN, 0, 0, dst);
      MsgRoundTrip(m);
      assert sk[0..MSG_SIZE] == EncodeMsg(m);
      assert sk[MSG_SIZE..] == OpsBytes(dst, r.ops) + ClientStream(rs[1..]);
      OneMessage(sk, 0, m, s, flushed);
      var s1 := Open(s, dst);
      assert SendableRequest(r);
      OpsMean(dst, r.ops, ClientStream(rs[1..]), s1, false, Images([], []));
      var f := FileOf(ApplyAll(Images([], []), r.ops));
      var s2 := s1.(images := s1.images[KeyOf(dst) := f]);
      assert s2.images == s.images[KeyOf(dst) := f];
      ServerRefinesLocal(rs[1..], s2, false);
    }
  }

  // Entries a server can write.
  ghost predicate ShortEntries(pm: seq<Entry>) {
    forall i :: 0 <= i < |pm| ==> pm[i].nrPages < TWO_20
  }

  ghost predicate ShortImages(images: map<Key, File>) {
    forall k :: k in images ==> ShortEntries(images[k].pagemap)
  }

  lemma WrittenShort(s: State, m: Msg, bytes: seq<Byte>)
    requires ShortImages(s.images) && Prepare(s, m.dstId).Some?
    ensures ShortImages(Written(Prepare(s, m.dstId).value, m.dstId, EntryOf(m), bytes).images)
  {
    LengthFits(m.nrPages);
  }

  /** Whatever it is sent, a server never writes an entry of 2^20 pages or more. */
  lemma {:induction false} ServerWritesShort(stream: seq<Byte>, s: State, flushed: bool)
    requires ShortImages(s.images)
    ensures var r := Interpret(stream, s, flushed); r.Ok? ==> ShortImages(r.s.images)
    decreases |stream|
  {
    if |stream| >= MSG_SIZE {
      hide Prepare, Written, EntryOf, DecodeMsg, ShortImages;
      var m, rest := DecodeMsg(stream[..MSG_SIZE]), stream[MSG_SIZE..];
      if m.cmd == PS_IOV_OPEN {
        OpenedShort(s, m.dstId);
        ServerWritesShort(rest, Open(s, m.dstId), false);
      } else if m.cmd == PS_IOV_FLUSH {
        ServerWritesShort(rest, s, true);
      } else if (m.cmd == PS_IOV_ADD || m.cmd == PS_IOV_HOLE) && Prepare(s, m.dstId).Some? {
        var n := if m.cmd == PS_IOV_ADD then Length32(m.nrPages) else 0;
        if n <= |rest| {
          var bytes := rest[..n];
          WrittenShort(s, m, bytes);
          ServerWritesShort(rest[n..], Written(Prepare(s, m.dstId).value, m.dstId, EntryOf(m), bytes), false);
          assert m.cmd == PS_IOV_HOLE ==> bytes == [] && rest[n..] == rest;
        }
      }
    }
  }

  lemma OpenedShort(s: State, dst: nat)
    requires ShortImages(s.images)
    ensures ShortImages(Open(s, dst).images)
  {
  }

  // Every run and hole is in the pagemap written locally, however long it is.
  lemma {:induction false} LocalEntry(sink: Sink, ops: seq<Op>, i: nat)
    requires sink.Images? && i < |ops|
    ensures ApplyAll(sink, ops).Images?
    ensures exists k :: 0 <= k < |ApplyAll(sink, ops).pagemap| &&
                        ApplyAll(sink, ops).pagemap[k].nrPages == ops[i].iov.len
    decreases |ops|
  {
    var sink' := Apply(sink, ops[0]);
    ImagesStay(sink', ops[1..]);
    if i == 0 {
      PagemapGrows(sink', ops[1..]);
      var pm := ApplyAll(sink, ops).pagemap;
      assert pm[|sink.pagemap|] == sink'.pagemap[|sink.pagemap|];
      assert pm[|sink.pagemap|].nrPages == ops[i].iov.len;
    } else {
      LocalEntry(sink', ops[1..], i - 1);
    }
  }

  lemma {:induction false} PagemapGrows(sink: Sink, ops: seq<Op>)
    requires sink.Images?
    ensures ApplyAll(sink, ops).Images? && sink.pagemap <= ApplyAll(sink, ops).pagemap
    decreases |ops|
  {
    if ops != [] {
      PagemapGrows(Apply(sink, ops[0]), ops[1..]);
    }
  }

  function RequestKey(r: Request): Key {
    (r.fdType as int, r.id as int)
  }

  // No pagemap is dumped twice.
  ghost predicate KeysDiffer(rs: seq<Request>) {
    forall i, j :: 0 <= i < j < |rs| ==> RequestKey(rs[i]) != RequestKey(rs[j])
  }

  // The images of a dump stay, if no later one replaces them.
  lemma {:induction false} LocalKeeps(rs: seq<Request>, images: map<Key, File>, k: Key)
    requires k in images && forall i :: 0 <= i < |rs| ==> RequestKey(rs[i]) != k
    ensures k in Local(rs, images) && Local(rs, images)[k] == images[k]
    decreases |rs|
  {
    if rs != [] {
      LocalSink(rs[0].ops);
      LocalKeeps(rs[1..], images[RequestKey(rs[0]) := FileOf(ApplyAll(Images([], []), rs[0].ops))], k);
    }
  }

  lemma {:induction false} LocalHas(rs: seq<Request>, images: map<Key, File>, i: nat)
    requires KeysDiffer(rs) && i < |rs|
    ensures RequestKey(rs[i]) in Local(rs, images)
    ensures ApplyAll(Images([], []), rs[i].ops).Images?
    ensures Local(rs, images)[RequestKey(rs[i])] == FileOf(ApplyAll(Images([], []), rs[i].ops))
    decreases |rs|
  {
    hide ApplyAll;
    LocalSink(rs[0].ops);
    var next := images[RequestKey(rs[0]) := FileOf(ApplyAll(Images([], []), rs[0].ops))];
    if i == 0 {
      LocalKeeps(rs[1..], next, RequestKey(rs[0]));
    } else {
      assert rs[i] == rs[1..][i - 1];
      LocalHas(rs[1..], next, i - 1);
    }
  }

  ghost predicate ShortOps(ops: seq<Op>) {
    forall i :: 0 <= i < |ops| ==> ops[i].iov.len < TWO_20
  }

  // A dump with a longer run or hole leaves images that no server has.
  lemma {:induction false} LongIsLost(rs: seq<Request>, s: State, flushed: bool, i: nat)
    requires KeysDiffer(rs) && ShortImages(s.images) && i < |rs| && !ShortOps(rs[i].ops)
    ensures var r := Interpret(ClientStream(rs), s, flushed); r.Ok? ==> r.s.images != Local(rs, s.images)
  {
    hide Interpret, ClientStream, ApplyAll, Local, KeysDiffer;
    ServerWritesShort(ClientStream(rs), s, flushed);
    LocalHas(rs, s.images, i);
    var n :| 0 <= n < |rs[i].ops| && rs[i].ops[n].iov.len >= TWO_20;
    LocalEntry(Images([], []), rs[i].ops, n);
    assert !ShortEntries(Local(rs, s.images)[RequestKey(rs[i])].pagemap);
  }

  // A request that fits the wire but for the length of its runs.
  ghost predicate WireRequest(r: Request) {
    r.fdType < 256 && r.id < TWO_56 && forall i :: 0 <= i < |r.ops| ==> WireOk(r.ops[i])
  }

  // What a stream leaves is what the dumps leave locally.
  ghost predicate Refines(rs: seq<Request>, s: State, flushed: bool) {
    var r := Interpret(ClientStream(rs), s, flushed);
    r.Ok? && r.s.images == Local(rs, s.images) && r.flushed
  }

  /** Exactly when the server is as good as local images: if every run and hole is shorter than 2^20 pages. */
  lemma RefinesExactly(rs: seq<Request>, s: State, flushed: bool)
    requires (forall i :: 0 <= i < |rs| ==> WireRequest(rs[i])) && KeysDiffer(rs) && ShortImages(s.images)
    ensures Refines(rs, s, flushed) <==> forall i :: 0 <= i < |rs| ==> ShortOps(rs[i].ops)
  {
    hide Interpret, ClientStream, Local, KeysDiffer, ShortImages, WireOk;
    if forall i :: 0 <= i < |rs| ==> ShortOps(rs[i].ops) {
      forall i | 0 <= i < |rs| ensures SendableRequest(rs[i]) {
        assert WireRequest(rs[i]) && ShortOps(rs[i].ops);
      }
      ServerRefinesLocal(rs, s, flushed);
    } else {
      var i :| 0 <= i < |rs| && !ShortOps(rs[i].ops);
      LongIsLost(rs, s, flushed, i);
    }
  }

  // A hole of 2^20 pages, four gigabytes, arrives as one of none.
  lemma {:induction false} LongHole(fdType: nat, id: nat, base: nat, s: State, flushed: bool)
    requires fdType < 256 && id < TWO_56 && base * PAGE_SIZE < TWO_64
    ensures var r := Request(fdType, id, [Hole(Iovec(base, TWO_20))]);
      && Local([r], s.images) == s.images[RequestKey(r) := File([Entry(base, TWO_20, true)], [])]
      && Interpret(ClientStream([r]), s, flushed)
         == Ok(State(s.images[RequestKey(r) := File([Entry(base, 0, true)], [])], DstOf(r), true), true)
  {
    var hole := Hole(Iovec(base, TWO_20));
    var r := Request(fdType, id, [hole]);
    LongHoleLocal(r, hole, s.images);
    PmIdRoundTrip(fdType, id);
    hide Interpret, EncodeMsg, DecodeMsg, Local, EncodePmId, Open, Written, ClientStream, OpBytes;
    var dst := DstOf(r);
    var flush, head := Msg(PS_IOV_FLUSH, 0, 0, 0), Msg(PS_IOV_OPEN, 0, 0, dst);
    var tail, ops := EncodeMsg(flush), OpBytes(dst, hole);
    var sk := EncodeMsg(head) + (ops + tail);
    OneOpStream(r, hole);
    assert sk[0..] == sk;
    HeadMessage(head, ops + tail);
    OneMessage(sk, 0, head, s, flushed);
    HoleMeans(dst, hole, tail, Open(s, dst), false);
    OpenAndHole(s, dst, base);
    var s2 := Written(Open(s, dst), dst, Entry(base, 0, true), []);
    HeadMessage(flush, []);
    assert tail + [] == tail && tail[0..] == tail;
    OneMessage(tail, 0, flush, s2, false);
    StreamEnd(tail[MSG_SIZE..], s2, true);
  }

  lemma OneOpStream(r: Request, op: Op)
    requires r.ops == [op]
    ensures ClientStream([r]) == EncodeMsg(Msg(PS_IOV_OPEN, 0, 0, DstOf(r)))
                                 + (OpBytes(DstOf(r), op) + EncodeMsg(Msg(PS_IOV_FLUSH, 0, 0, 0)))
  {
    hide EncodeMsg, OpBytes, DstOf;
    var dst := DstOf(r);
    assert [r][1..] == [] && [op][1..] == [];
    assert OpsBytes(dst, [op]) == OpBytes(dst, op) + OpsBytes(dst, []) == OpBytes(dst, op);
    assert ClientStream([]) == EncodeMsg(Msg(PS_IOV_FLUSH, 0, 0, 0));
  }

  lemma OpenAndHole(s: State, dst: nat, base: nat)
    ensures Written(Open(s, dst), dst, Entry(base, 0, true), [])
            == State(s.images[KeyOf(dst) := File([Entry(base, 0, true)], [])], dst, true)
  {
    var f, was := File([Entry(base, 0, true)], []), Open(s, dst).images[KeyOf(dst)];
    assert was.pagemap + [Entry(base, 0, true)] == f.pagemap && was.bytes + [] == f.bytes;
    assert s.images[KeyOf(dst) := File([], [])][KeyOf(dst) := f] == s.images[KeyOf(dst) := f];
  }

  lemma {:induction false} LongHoleLocal(r: Request, hole: Op, images: map<Key, File>)
    requires hole.Hole? && r.ops == [hole]
    ensures Local([r], images) == images[RequestKey(r) := File([Entry(hole.iov.base, hole.iov.len, true)], [])]
  {
    assert [r][1..] == [] && [hole][1..] == [];
    var sink := Apply(Images([], []), hole);
    assert ApplyAll(Images([], []), [hole]) == ApplyAll(sink, []) == sink;
    assert [] + [Entry(hole.iov.base, hole.iov.len, true)] == [Entry(hole.iov.base, hole.iov.len, true)];
  }

  /** A whole session: whatever pieces the stream of a client arrives in, a server that reports success
      has the images that the same dumps write locally, and if no call fails it reports success. */
  method ServeClient(ps: PageServer, rs: seq<Request>, pipeSize: nat) returns (ret: int)
    requires pipeSize > 0 && forall i :: 0 <= i < |rs| ==> SendableRequest(rs[i])
    modifies ps
    ensures ret == 0 ==> ps.images == Local(rs, old(ps.images))
    ensures ret == 0 || ps.flaky
  {
    hide Interpret, ClientStream, SendableRequest;
    ServerRefinesLocal(rs, ps.Now(), false);
    ret := ps.Serve(ClientStream(rs), pipeSize);
  }
}
