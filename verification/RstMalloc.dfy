/** Memory for the restore: a buffer that objects are taken from one after the other, that may move when it grows,
    and that is moved once more in the end (rst-malloc.c). */
module RstMalloc {
  import opened Options
  import opened PageImages

  const PAGE := 4096
  const RST_MEM_BATCH := 2 * PAGE

  // The address space: the bytes that are mapped.
  type Memory = nat -> Option<Byte>

  // The i-th byte from an address on.
  function ByteAt(m: Memory, a: nat, i: nat): Option<Byte> {
    m(a + i)
  }

  ghost predicate Mapped(m: Memory, a: nat, n: nat) {
    forall i: nat :: i < n ==> ByteAt(m, a, i).Some?
  }

  ghost predicate Unmapped(m: Memory, a: nat, n: nat) {
    forall i: nat :: i < n ==> ByteAt(m, a, i).None?
  }

  // mmap: new memory, all zero.
  function WithNew(m: Memory, a: nat, n: nat): Memory {
    (x: nat) => if a <= x < a + n then Some(0) else m(x)
  }

  // mremap: memory that is moved, and grown with zeros.
  function WithMoved(m: Memory, was: nat, n: nat, now: nat, more: nat): Memory {
    (x: nat) =>
      if now <= x < now + more then if x - now < n then m(was + (x - now)) else Some(0)
      else if was <= x < was + n then None
      else m(x)
  }

  // The content of n bytes is the same in two memories, at two places.
  ghost predicate SameBytes(m: Memory, a: nat, m': Memory, a': nat, n: nat) {
    forall i: nat :: i < n ==> ByteAt(m', a', i) == ByteAt(m, a, i)
  }

  // An object: where it begins, counted from the beginning of the buffer, and its size.
  datatype Obj = Obj(pos: nat, size: nat)

  function End(objs: seq<Obj>): nat {
    if objs == [] then 0 else End(objs[..|objs| - 1]) + objs[|objs| - 1].size
  }

  // Objects that lie one after the other.
  ghost predicate Laid(objs: seq<Obj>) {
    objs != [] ==> Laid(objs[..|objs| - 1]) && objs[|objs| - 1].pos == End(objs[..|objs| - 1])
  }

  lemma {:induction false} LaidMore(objs: seq<Obj>, o: Obj)
    requires Laid(objs) && o.pos == End(objs)
    ensures Laid(objs + [o]) && End(objs + [o]) == End(objs) + o.size
  {
    assert (objs + [o])[..|objs|] == objs;
  }

  // Every object ends where the next one begins, or at the end of all.
  lemma {:induction false} LaidNext(objs: seq<Obj>, k: nat)
    requires Laid(objs) && k < |objs|
    ensures objs[k].pos + objs[k].size == if k + 1 < |objs| then objs[k + 1].pos else End(objs)
  {
    if k + 1 < |objs| {
      var less := objs[..|objs| - 1];
      LaidNext(less, k);
      assert k + 1 < |less| ==> less[k + 1] == objs[k + 1];
    }
  }

  // Objects never overlap, and lie below the end of all.
  lemma {:induction false} ObjectsDisjoint(objs: seq<Obj>, j: nat, k: nat)
    requires Laid(objs) && j < k <= |objs|
    ensures objs[j].pos + objs[j].size <= if k < |objs| then objs[k].pos else End(objs)
    decreases k
  {
    LaidNext(objs, k - 1);
    if j + 1 < k {
      ObjectsDisjoint(objs, j, k - 1);
    }
  }

  // Objects of one size, allocated one after the other, are an array.
  lemma {:induction false} ObjectsAreArray(objs: seq<Obj>, j: nat, n: nat, size: nat)
    requires Laid(objs) && j + n < |objs|
    requires forall k :: j <= k <= j + n ==> objs[k].size == size
    ensures objs[j + n].pos == objs[j].pos + n * size
    decreases n
  {
    if n > 0 {
      ObjectsAreArray(objs, j, n - 1, size);
      LaidNext(objs, j + n - 1);
    }
  }

  // By how much a buffer grows.
  function RstMemGrow(need: nat): (r: nat)
    ensures r >= need && r % PAGE == 0 && r >= RST_MEM_BATCH
    ensures need > RST_MEM_BATCH ==> r < need + PAGE
  {
    var up := (need + PAGE - 1) / PAGE * PAGE;
    if up < RST_MEM_BATCH then RST_MEM_BATCH else up
  }

  // In numbers: two pages at least, and whole pages above that.
  lemma GrowsBy()
    ensures RstMemGrow(1) == 8192 && RstMemGrow(8193) == 12288
  {
  }

  // All objects have kept their content, relative to the buffer.
  ghost predicate Kept(m: Memory, buf: nat, m': Memory, buf': nat, objs: seq<Obj>) {
    forall k :: 0 <= k < |objs| ==> SameBytes(m, buf + objs[k].pos, m', buf' + objs[k].pos, objs[k].size)
  }

  lemma {:induction false} KeptBy(m: Memory, buf: nat, m': Memory, buf': nat, objs: seq<Obj>)
    requires Laid(objs) && SameBytes(m, buf, m', buf', End(objs))
    ensures Kept(m, buf, m', buf', objs)
  {
    hide Laid, End;
    forall k | 0 <= k < |objs| ensures SameBytes(m, buf + objs[k].pos, m', buf' + objs[k].pos, objs[k].size) {
      ObjectsDisjoint(objs, k, |objs|);
      var pos := objs[k].pos;
      var a, a' := buf + pos, buf' + pos;
      forall i: nat | i < objs[k].size ensures ByteAt(m', a', i) == ByteAt(m, a, i) {
        assert ByteAt(m', buf', pos + i) == ByteAt(m, buf, pos + i);
      }
    }
  }

  // What the kernel may answer to a request for memory: that there is none, or a free place.
  ghost predicate MayMap(m: Memory, aux: int, n: nat) {
    aux == -1 || (aux > 0 && Unmapped(m, aux, n))
  }

  // And to a request to grow memory: a place that was free, or was part of it.
  ghost predicate MayMove(m: Memory, was: nat, n: nat, aux: int, more: nat) {
    aux == -1 ||
    (aux > 0 && forall i: nat :: i < more ==> ByteAt(m, aux, i).None? || was <= aux + i < was + n)
  }

  // Two ranges have no byte in common.
  ghost predicate Apart(a: nat, n: nat, b: nat, k: nat) {
    n == 0 || k == 0 || a + n <= b || b + k <= a
  }

  // Memory outside a range is as it was.
  ghost predicate Untouched(m: Memory, m': Memory, a: nat, n: nat) {
    forall b: nat, k: nat :: Mapped(m, b, k) && Apart(b, k, a, n) ==> SameBytes(m, b, m', b, k)
  }

  lemma MovedBytes(m: Memory, was: nat, n: nat, now: nat, more: nat)
    requires Mapped(m, was, n) && n <= more
    ensures SameBytes(m, was, WithMoved(m, was, n, now, more), now, n)
    ensures Mapped(WithMoved(m, was, n, now, more), now, more)
  {
    var m' := WithMoved(m, was, n, now, more);
    forall i: nat | i < more ensures ByteAt(m', now, i) == (if i < n then ByteAt(m, was, i) else Some(0)) {
    }
  }

  // Memory that was mapped and is not what is moved stays as it is.
  lemma MovedAround(m: Memory, was: nat, n: nat, aux: nat, more: nat, a: nat, k: nat)
    requires MayMove(m, was, n, aux, more) && Mapped(m, a, k) && Apart(a, k, was, n)
    ensures SameBytes(m, a, WithMoved(m, was, n, aux, more), a, k)
  {
    var m' := WithMoved(m, was, n, aux, more);
    forall i: nat | i < k ensures ByteAt(m', a, i) == ByteAt(m, a, i) {
      assert aux <= a + i ==> ByteAt(m, aux, a + i - aux) == ByteAt(m, a, i);
    }
  }

  lemma NewBytes(m: Memory, a: nat, n: nat)
    ensures Mapped(WithNew(m, a, n), a, n)
  {
  }

  lemma NewAround(m: Memory, aux: nat, n: nat, a: nat, k: nat)
    requires MayMap(m, aux, n) && Mapped(m, a, k)
    ensures SameBytes(m, a, WithNew(m, aux, n), a, k)
    ensures Apart(a, k, aux, n)
  {
    var m' := WithNew(m, aux, n);
    forall i: nat | i < k ensures ByteAt(m', a, i) == ByteAt(m, a, i) {
      assert aux <= a + i ==> ByteAt(m, aux, a + i - aux) == ByteAt(m, a, i);
    }
    var x := if a < aux then aux else a;
    assert ByteAt(m, aux, x - aux) == ByteAt(m, a, x - a);
  }

  /** A buffer of objects that are to be used by the restorer, and so can be moved: RM_SHREMAP and RM_PRIVATE. */
  class RemapBuffer {
    var enabled: bool
    var buf: nat
    var size: nat
    var freeMem: nat
    var freeBytes: nat
    var last: nat

    // The objects that are live, in the order in which they were allocated.
    ghost var objs: seq<Obj>

    // The objects lie at the beginning of the buffer, and the rest of it is free; only the last object can be freed.
    ghost predicate Valid(m: Memory)
      reads this
    {
      && (buf == 0 ==> size == 0)
      && Mapped(m, buf, size)
      && Laid(objs) && freeMem == buf + End(objs) && End(objs) + freeBytes == size
      && (last != 0 ==> objs != [] && objs[|objs| - 1].size == last)
    }

    constructor (on: bool)
      ensures forall m :: Valid(m)
      ensures enabled == on && buf == 0 && objs == []
    {
      enabled, buf, size, freeMem, freeBytes, last, objs := on, 0, 0, 0, 0, 0, [];
    }

    // The cookie of the next object.
    method Cpos(ghost m: Memory) returns (pos: nat)
      requires Valid(m) && enabled
      ensures pos == End(objs)
    {
      pos := freeMem - buf;
    }

    // Where the object of a cookie is now.
    function RemapPtr(pos: nat): nat
      reads this
    {
      buf + pos
    }

    // Growing the buffer, which may move it. aux is the kernel's answer.
    method Grow(m: Memory, need: nat, aux: int) returns (ret: int, m': Memory)
      requires Valid(m)
      requires if buf == 0 then MayMap(m, aux, RstMemGrow(need))
               else MayMove(m, buf, size, aux, size + RstMemGrow(need))
      modifies `buf, `size, `freeMem, `freeBytes
      ensures ret == 0 <==> aux != -1
      ensures ret != 0 ==> m' == m && buf == old(buf) && size == old(size)
      ensures ret != 0 ==> freeMem == old(freeMem) && freeBytes == old(freeBytes)
      ensures ret == 0 ==> Valid(m') && buf == aux && freeBytes >= need && Kept(m, old(buf), m', buf, objs)
      ensures ret == 0 ==> size == old(size) + RstMemGrow(need)
      ensures Untouched(m, m', old(buf), old(size))
    {
      hide Laid, End, Mapped, SameBytes;
      var more := RstMemGrow(need);
      m' := m;
      if aux == -1 {
        UntouchedStill(m, buf, size);
        return -1, m;
      }
      if buf == 0 {
        m' := WithNew(m, aux, more);
        NewBytes(m, aux, more);
        Nothing(m, m', aux);
        NewUntouched(m, aux, more);
      } else {
        m' := WithMoved(m, buf, size, aux, size + more);
        MovedBytes(m, buf, size, aux, size + more);
        MovedUntouched(m, buf, size, aux, size + more);
      }
      Less(m, buf, m', aux, size, End(objs));
      KeptBy(m, buf, m', aux, objs);
      freeMem := freeMem + aux - buf;
      freeBytes := freeBytes + more;
      size := size + more;
      buf := aux;
      ret := 0;
    }

    // Allocating an object: where it is now, or 0 if there is no memory.
    method Alloc(m: Memory, n: nat, aux: int) returns (p: nat, m': Memory)
      requires Valid(m) && enabled
      requires if buf == 0 then MayMap(m, aux, RstMemGrow(n)) else MayMove(m, buf, size, aux, size + RstMemGrow(n))
      modifies this
      ensures Valid(m') && enabled && Kept(m, old(buf), m', buf, old(objs))
      ensures Untouched(m, m', old(buf), old(size))
      ensures if old(freeBytes) < n && aux == -1 then p == 0 && objs == old(objs) && m' == m && last == old(last)
              else p == buf + End(old(objs)) && objs == old(objs) + [Obj(End(old(objs)), n)] && last == n
      ensures if old(freeBytes) < n && aux != -1 then buf == aux && size == old(size) + RstMemGrow(n)
              else buf == old(buf) && size == old(size)
    {
      hide Laid, End, Mapped, Kept, Untouched;
      m' := m;
      UntouchedStill(m, buf, size);
      if freeBytes < n {
        var ret;
        ret, m' := Grow(m, n, aux);
        if ret != 0 {
          KeptStill(m, buf, objs);
          return 0, m';
        }
      } else {
        KeptStill(m, buf, objs);
      }
      p := freeMem;
      LaidMore(objs, Obj(End(objs), n));
      freeMem := freeMem + n;
      freeBytes := freeBytes - n;
      last := n;
      objs := objs + [Obj(End(objs), n)];
    }

    // Freeing the object that was allocated last, once.
    method FreeLast(ghost m: Memory)
      requires Valid(m) && enabled
      modifies `freeMem, `freeBytes, `last, `objs
      ensures Valid(m) && last == 0
      ensures objs == if old(last) == 0 then old(objs) else old(objs)[..|old(objs)| - 1]
    {
      freeMem := freeMem - last;
      freeBytes := freeBytes + last;
      objs := if last == 0 then objs else objs[..|objs| - 1];
      last := 0;
    }

    // Moving the whole buffer to its final place. ok is the kernel's answer.
    method RemapOne(m: Memory, to: nat, ok: bool) returns (ret: int, m': Memory)
      requires Valid(m) && Apart(buf, size, to, size) && (buf != 0 ==> to != 0)
      modifies `buf, `enabled
      ensures ret == 0 <==> old(buf) == 0 || ok
      ensures ret == 0 ==> m' == (if old(buf) == 0 then m else WithMoved(m, old(buf), size, to, size))
      ensures ret == 0 ==> buf == (if old(buf) == 0 then 0 else to)
      ensures ret == 0 ==> Mapped(m', buf, size) && Kept(m, old(buf), m', buf, objs)
      ensures ret != 0 ==> m' == m && buf == old(buf)
    {
      hide Laid, End, Mapped, Kept, SameBytes;
      m' := m;
      if buf == 0 {
        KeptStill(m, buf, objs);
        return 0, m;
      }
      if !ok {
        return -1, m;
      }
      m' := WithMoved(m, buf, size, to, size);
      MovedBytes(m, buf, size, to, size);
      Less(m, buf, m', to, size, End(objs));
      KeptBy(m, buf, m', to, objs);
      buf := to;
      enabled := false;
      ret := 0;
    }
  }

  lemma UntouchedStill(m: Memory, a: nat, n: nat)
    ensures Untouched(m, m, a, n)
  {
  }

  lemma NewUntouched(m: Memory, aux: nat, n: nat)
    requires MayMap(m, aux, n)
    ensures Untouched(m, WithNew(m, aux, n), 0, 0)
  {
    hide Mapped, SameBytes;
    var m' := WithNew(m, aux, n);
    forall b: nat, k: nat | Mapped(m, b, k) ensures SameBytes(m, b, m', b, k) {
      NewAround(m, aux, n, b, k);
    }
  }

  lemma MovedUntouched(m: Memory, was: nat, n: nat, aux: nat, more: nat)
    requires MayMove(m, was, n, aux, more)
    ensures Untouched(m, WithMoved(m, was, n, aux, more), was, n)
  {
    hide Mapped, SameBytes;
    var m' := WithMoved(m, was, n, aux, more);
    forall b: nat, k: nat | Mapped(m, b, k) && Apart(b, k, was, n) ensures SameBytes(m, b, m', b, k) {
      MovedAround(m, was, n, aux, more, b, k);
    }
  }

  // A range apart from where something is moved from and to.
  lemma MovedElsewhere(m: Memory, was: nat, n: nat, now: nat, more: nat, a: nat, k: nat)
    requires Apart(a, k, was, n) && Apart(a, k, now, more)
    ensures SameBytes(m, a, WithMoved(m, was, n, now, more), a, k)
  {
  }

  lemma {:induction false} SameTwice(m: Memory, a: nat, m': Memory, a': nat, m'': Memory, n: nat, objs: seq<Obj>)
    requires Laid(objs) && End(objs) <= n
    requires Kept(m, a, m', a', objs) && SameBytes(m', a', m'', a', n)
    ensures Kept(m, a, m'', a', objs)
  {
    hide Laid, End;
    Less(m', a', m'', a', n, End(objs));
    KeptBy(m', a', m'', a', objs);
    forall k | 0 <= k < |objs| ensures SameBytes(m, a + objs[k].pos, m'', a' + objs[k].pos, objs[k].size) {
      var o, p := a + objs[k].pos, a' + objs[k].pos;
      assert SameBytes(m, o, m', p, objs[k].size) && SameBytes(m', p, m'', p, objs[k].size);
    }
  }

  // How much room the two buffers need together.
  function RemapSize(priv: RemapBuffer, shremap: RemapBuffer): nat
    reads priv, shremap
  {
    priv.size + shremap.size
  }

  // Moving both buffers to their final place, one after the other: they fill it, and every object is where
  // its cookie says.
  method Remap(m: Memory, priv: RemapBuffer, shremap: RemapBuffer, to: nat, ok: bool, ok2: bool)
    returns (ret: int, m': Memory)
    requires priv != shremap && priv.Valid(m) && shremap.Valid(m) && to != 0
    requires Apart(priv.buf, priv.size, shremap.buf, shremap.size)
    requires Apart(priv.buf, priv.size, to, RemapSize(priv, shremap))
    requires Apart(shremap.buf, shremap.size, to, RemapSize(priv, shremap))
    modifies priv`buf, priv`enabled, shremap`buf, shremap`enabled
    ensures ret == 0 <==> (old(priv.buf) == 0 || ok) && (old(shremap.buf) == 0 || ok2)
    ensures ret == 0 ==>
      && (old(priv.buf) != 0 ==> priv.buf == to) && (old(shremap.buf) != 0 ==> shremap.buf == to + priv.size)
      && (old(priv.buf) == 0 ==> priv.size == 0) && (old(shremap.buf) == 0 ==> shremap.size == 0)
      && Kept(m, old(priv.buf), m', priv.buf, priv.objs)
      && Kept(m, old(shremap.buf), m', shremap.buf, shremap.objs)
  {
    hide Laid, End, Kept, SameBytes, Mapped;
    ghost var ps, ss, pb, sb := priv.size, shremap.size, priv.buf, shremap.buf;
    MappedStays(m, pb, ps, to, sb, ss);
    var m1;
    ret, m1 := priv.RemapOne(m, to, ok);
    m' := m1;
    if ret != 0 {
      return;
    }
    SameAround(m, m1, pb, ps, to, sb, ss);
    ret, m' := shremap.RemapOne(m1, to + priv.size, ok2);
    if ret != 0 {
      return;
    }
    SameAround(m1, m', sb, ss, to + ps, priv.buf, ps);
    SameTwice(m, pb, m1, priv.buf, m', ps, priv.objs);
    KeptFrom(m, m1, m', sb, shremap.buf, ss, shremap.objs);
  }

  lemma MappedStays(m: Memory, was: nat, n: nat, to: nat, a: nat, k: nat)
    requires Mapped(m, a, k) && Apart(a, k, was, n) && Apart(a, k, to, n)
    ensures Mapped(WithMoved(m, was, n, to, n), a, k)
  {
    MovedElsewhere(m, was, n, to, n, a, k);
  }

  // Another buffer stays as it is while one is moved, or not, if it is empty.
  lemma SameAround(m: Memory, m': Memory, was: nat, n: nat, to: nat, a: nat, k: nat)
    requires m' == if was == 0 then m else WithMoved(m, was, n, to, n)
    requires Apart(a, k, was, n) && Apart(a, k, to, n)
    ensures SameBytes(m, a, m', a, k)
  {
    if was != 0 {
      MovedElsewhere(m, was, n, to, n, a, k);
    }
  }

  lemma {:induction false} KeptFrom(m: Memory, m1: Memory, m': Memory, a: nat, a': nat, n: nat, objs: seq<Obj>)
    requires Laid(objs) && End(objs) <= n
    requires SameBytes(m, a, m1, a, n) && Kept(m1, a, m', a', objs)
    ensures Kept(m, a, m', a', objs)
  {
    hide Laid, End;
    Less(m, a, m1, a, n, End(objs));
    KeptBy(m, a, m1, a, objs);
    forall k | 0 <= k < |objs| ensures SameBytes(m, a + objs[k].pos, m', a' + objs[k].pos, objs[k].size) {
      var o, p := a + objs[k].pos, a' + objs[k].pos;
      assert SameBytes(m, o, m1, o, objs[k].size) && SameBytes(m1, o, m', p, objs[k].size);
    }
  }

  lemma Nothing(m: Memory, m': Memory, a: nat)
    ensures SameBytes(m, 0, m', a, 0)
  {
  }

  lemma Less(m: Memory, a: nat, m': Memory, a': nat, n: nat, k: nat)
    requires SameBytes(m, a, m', a', n) && k <= n
    ensures SameBytes(m, a, m', a', k)
  {
  }

  lemma KeptStill(m: Memory, buf: nat, objs: seq<Obj>)
    ensures Kept(m, buf, m, buf, objs)
  {
  }

  // What the restore does with a buffer: allocating, freeing, and writing a byte where a cookie says.
  datatype Call =
    | Allocate(size: nat)
    | Free
    | Store(pos: nat, byte: Byte)

  // The kernel's answers to requests for memory, by the memory, the buffer, its size and what is needed.
  type Kernel = (Memory, nat, nat, nat) -> int

  ghost predicate IsKernel(kernel: Kernel) {
    forall m: Memory, buf: nat, size: nat, need: nat ::
      var aux := kernel(m, buf, size, need);
      if buf == 0 then MayMap(m, aux, RstMemGrow(need)) else MayMove(m, buf, size, aux, size + RstMemGrow(need))
  }

  function WithByte(m: Memory, a: nat, b: Byte): Memory {
    (x: nat) => if x == a then Some(b) else m(x)
  }

  // A call that does not write into an object.
  predicate Spares(call: Call, o: Obj) {
    call.Store? ==> !(o.pos <= call.pos < o.pos + o.size)
  }

  // How many objects can no longer be freed: all but the one allocated last.
  ghost function Fixed(objs: seq<Obj>, last: nat): int {
    |objs| - if last != 0 then 1 else 0
  }

  // An object is where its cookie says, with the content it had.
  ghost predicate KeptAt(m: Memory, buf: nat, o: Obj, m': Memory, buf': nat, objs': seq<Obj>, i: nat) {
    i < |objs'| && objs'[i] == o && SameBytes(m, buf + o.pos, m', buf' + o.pos, o.size)
  }

  lemma StoreElsewhere(m: Memory, a: nat, b: Byte, x: nat, n: nat)
    requires !(x <= a < x + n)
    ensures SameBytes(m, x, WithByte(m, a, b), x, n)
  {
  }

  lemma StoreMapped(m: Memory, a: nat, b: Byte, x: nat, n: nat)
    requires Mapped(m, x, n)
    ensures Mapped(WithByte(m, a, b), x, n)
  {
    forall i: nat | i < n ensures ByteAt(WithByte(m, a, b), x, i).Some? {
      assert ByteAt(m, x, i).Some?;
    }
  }

  // A buffer that grows stays apart from memory that was apart from it.
  lemma StaysApart(m: Memory, buf: nat, size: nat, aux: int, more: nat, a: nat, k: nat)
    requires Mapped(m, a, k) && Apart(buf, size, a, k) && aux != -1
    requires if buf == 0 then MayMap(m, aux, more) else MayMove(m, buf, size, aux, more)
    ensures aux > 0 && Apart(aux, more, a, k)
  {
    var x := if a < aux then aux else a;
    assert aux <= x < aux + more && a <= x < a + k ==> ByteAt(m, aux, x - aux) == ByteAt(m, a, x - a);
  }

  // What one call keeps.
  ghost predicate StepKeeps(m: Memory, buf: nat, objs: seq<Obj>, last: nat, call: Call,
                            m': Memory, buf': nat, objs': seq<Obj>, last': nat) {
    && Fixed(objs, last) <= Fixed(objs', last') && (!call.Free? ==> |objs| <= |objs'|)
    && forall i: nat :: i < |objs| && (call.Free? ==> i < Fixed(objs, last)) && Spares(call, objs[i]) ==>
         KeptAt(m, buf, objs[i], m', buf', objs', i)
  }

  // One call. Memory apart from the buffer stays as it is, and apart from it.
  method Step(rb: RemapBuffer, m: Memory, call: Call, kernel: Kernel, ghost a: nat, ghost k: nat)
    returns (m': Memory)
    requires rb.Valid(m) && rb.enabled && IsKernel(kernel) && Mapped(m, a, k) && Apart(rb.buf, rb.size, a, k)
    modifies rb
    ensures rb.Valid(m') && rb.enabled && SameBytes(m, a, m', a, k) && Apart(rb.buf, rb.size, a, k)
    ensures StepKeeps(m, old(rb.buf), old(rb.objs), old(rb.last), call, m', rb.buf, rb.objs, rb.last)
  {
    hide Laid, End, SameBytes, Mapped, MayMap, MayMove, Untouched;
    m' := m;
    SameStill(m, a, k);
    KeptStill(m, rb.buf, rb.objs);
    match call {
      case Allocate(n) =>
        var aux := kernel(m, rb.buf, rb.size, n);
        ghost var buf, size := rb.buf, rb.size;
        if aux != -1 {
          StaysApart(m, buf, size, aux, size + RstMemGrow(n), a, k);
        }
        var p;
        p, m' := rb.Alloc(m, n, aux);
        SameApart(m, m', buf, size, a, k);
      case Free =>
        rb.FreeLast(m);
      case Store(pos, b) =>
        if rb.RemapPtr(pos) < rb.freeMem {
          m' := WithByte(m, rb.RemapPtr(pos), b);
          StoredAt(m, rb.buf, rb.size, rb.objs, pos, b, a, k);
        }
    }
  }

  lemma SameApart(m: Memory, m': Memory, buf: nat, size: nat, a: nat, k: nat)
    requires Untouched(m, m', buf, size) && Mapped(m, a, k) && Apart(buf, size, a, k)
    ensures SameBytes(m, a, m', a, k)
  {
    assert Apart(a, k, buf, size);
  }

  lemma SameStill(m: Memory, a: nat, n: nat)
    ensures SameBytes(m, a, m, a, n)
  {
  }

  // A byte is written into the used part of a buffer.
  lemma {:induction false} StoredAt(m: Memory, buf: nat, size: nat, objs: seq<Obj>, pos: nat, b: Byte, a: nat, k: nat)
    requires Mapped(m, buf, size) && Laid(objs) && pos < End(objs) <= size && Apart(buf, size, a, k)
    ensures var m' := WithByte(m, buf + pos, b);
      && Mapped(m', buf, size) && SameBytes(m, a, m', a, k)
      && forall i: nat :: i < |objs| && Spares(Store(pos, b), objs[i]) ==> KeptAt(m, buf, objs[i], m', buf, objs, i)
  {
    hide Laid, End, SameBytes, Mapped;
    StoreMapped(m, buf + pos, b, buf, size);
    NotIn(buf, size, pos, a, k);
    StoreElsewhere(m, buf + pos, b, a, k);
    forall i: nat | i < |objs| && Spares(Store(pos, b), objs[i])
      ensures KeptAt(m, buf, objs[i], WithByte(m, buf + pos, b), buf, objs, i)
    {
      StoreElsewhere(m, buf + pos, b, buf + objs[i].pos, objs[i].size);
    }
  }

  lemma NotIn(buf: nat, size: nat, pos: nat, a: nat, k: nat)
    requires pos < size && Apart(buf, size, a, k)
    ensures !(a <= buf + pos < a + k)
  {
  }

  // An object that no call frees or writes into.
  ghost predicate Outlives(objs: seq<Obj>, last: nat, calls: seq<Call>, i: nat) {
    && i < |objs| && (i < Fixed(objs, last) || forall c :: c in calls ==> !c.Free?)
    && forall c :: c in calls ==> Spares(c, objs[i])
  }

  // What any calls keep.
  ghost predicate CallsKeep(m: Memory, buf: nat, objs: seq<Obj>, last: nat, calls: seq<Call>,
                            m': Memory, buf': nat, objs': seq<Obj>) {
    forall i: nat :: Outlives(objs, last, calls, i) ==> KeptAt(m, buf, objs[i], m', buf', objs', i)
  }

  // Where a run of calls stands.
  ghost predicate Running(m: Memory, buf: nat, objs: seq<Obj>, last: nat, calls: seq<Call>,
                          m': Memory, buf': nat, objs': seq<Obj>, last': nat) {
    && CallsKeep(m, buf, objs, last, calls, m', buf', objs')
    && Fixed(objs, last) <= Fixed(objs', last')
    && ((forall c :: c in calls ==> !c.Free?) ==> |objs| <= |objs'|)
  }

  lemma RunMore(m: Memory, buf: nat, objs: seq<Obj>, last: nat, calls: seq<Call>,
                m1: Memory, buf1: nat, objs1: seq<Obj>, last1: nat, call: Call,
                m2: Memory, buf2: nat, objs2: seq<Obj>, last2: nat)
    requires Running(m, buf, objs, last, calls, m1, buf1, objs1, last1)
    requires StepKeeps(m1, buf1, objs1, last1, call, m2, buf2, objs2, last2)
    ensures Running(m, buf, objs, last, calls + [call], m2, buf2, objs2, last2)
  {
    hide SameBytes;
    assert forall c :: c in calls ==> c in calls + [call];
    assert call in calls + [call];
    forall i: nat | Outlives(objs, last, calls + [call], i)
      ensures KeptAt(m, buf, objs[i], m2, buf2, objs2, i)
    {
      assert Outlives(objs, last, calls, i);
      assert KeptAt(m, buf, objs[i], m1, buf1, objs1, i);
      assert KeptAt(m1, buf1, objs1[i], m2, buf2, objs2, i);
      SameAgain(m, buf + objs[i].pos, m1, buf1 + objs[i].pos, m2, buf2 + objs[i].pos, objs[i].size);
    }
  }

  lemma SameAgain(m: Memory, a: nat, m1: Memory, a1: nat, m2: Memory, a2: nat, n: nat)
    requires SameBytes(m, a, m1, a1, n) && SameBytes(m1, a1, m2, a2, n)
    ensures SameBytes(m, a, m2, a2, n)
  {
  }

  /** Any calls, whatever the kernel answers: every object that is neither freed nor written into is where its cookie
      says, with its content. Memory apart from the buffer stays as it is. */
  method Run(rb: RemapBuffer, m: Memory, calls: seq<Call>, kernel: Kernel, ghost a: nat, ghost k: nat)
    returns (m': Memory)
    requires rb.Valid(m) && rb.enabled && IsKernel(kernel) && Mapped(m, a, k) && Apart(rb.buf, rb.size, a, k)
    modifies rb
    ensures rb.Valid(m') && rb.enabled && SameBytes(m, a, m', a, k) && Apart(rb.buf, rb.size, a, k)
    ensures CallsKeep(m, old(rb.buf), old(rb.objs), old(rb.last), calls, m', rb.buf, rb.objs)
  {
    hide Laid, End, SameBytes, Mapped, IsKernel, StepKeeps, Running, Apart;
    m' := m;
    SameStill(m, a, k);
    RunStart(m, rb.buf, rb.objs, rb.last);
    var n := 0;
    while n < |calls|
      invariant 0 <= n <= |calls|
      invariant rb.Valid(m') && rb.enabled && SameBytes(m, a, m', a, k) && Apart(rb.buf, rb.size, a, k)
      invariant Running(m, old(rb.buf), old(rb.objs), old(rb.last), calls[..n], m', rb.buf, rb.objs, rb.last)
    {
      var m1 := m';
      ghost var buf1, objs1, last1 := rb.buf, rb.objs, rb.last;
      StillMapped(m, a, m1, k);
      m' := Step(rb, m1, calls[n], kernel, a, k);
      SameAgain(m, a, m1, a, m', a, k);
      RunMore(m, old(rb.buf), old(rb.objs), old(rb.last), calls[..n], m1, buf1, objs1, last1, calls[n],
              m', rb.buf, rb.objs, rb.last);
      assert calls[..n] + [calls[n]] == calls[..n + 1];
      n := n + 1;
    }
    assert calls[..n] == calls;
    RunEnd(m, old(rb.buf), old(rb.objs), old(rb.last), calls, m', rb.buf, rb.objs, rb.last);
  }

  lemma RunStart(m: Memory, buf: nat, objs: seq<Obj>, last: nat)
    ensures Running(m, buf, objs, last, [], m, buf, objs, last)
  {
    KeptStill(m, buf, objs);
  }

  lemma RunEnd(m: Memory, buf: nat, objs: seq<Obj>, last: nat, calls: seq<Call>,
               m': Memory, buf': nat, objs': seq<Obj>, last': nat)
    requires Running(m, buf, objs, last, calls, m', buf', objs', last')
    ensures CallsKeep(m, buf, objs, last, calls, m', buf', objs')
  {
  }

  // Free memory is apart from what is mapped.
  lemma FreeIsApart(m: Memory, a: nat, k: nat, to: int, n: nat)
    requires Mapped(m, a, k) && MayMap(m, to, n) && to != -1
    ensures to > 0 && Apart(a, k, to, n)
  {
    var x := if a < to then to else a;
    assert a <= x < a + k && to <= x < to + n ==> ByteAt(m, a, x - a) == ByteAt(m, to, x - to);
  }

  /** The whole life of the two buffers: any calls on the shared one, then the switch to private memory and any calls
      on that, and the move of both to a free place. Every object of either that was there at the beginning, and is
      neither freed nor written into, is in the end where its cookie says, with its content. */
  method Life(m: Memory, priv: RemapBuffer, shremap: RemapBuffer, early: seq<Call>, late: seq<Call>, kernel: Kernel,
              place: (Memory, nat) -> int, ok: bool, ok2: bool) returns (ret: int, m': Memory)
    requires priv != shremap && priv.Valid(m) && shremap.Valid(m) && shremap.enabled && IsKernel(kernel)
    requires Apart(priv.buf, priv.size, shremap.buf, shremap.size)
    requires forall w: Memory, n: nat :: MayMap(w, place(w, n), n)
    modifies priv, shremap
    ensures ret == 0 ==>
      && CallsKeep(m, old(shremap.buf), old(shremap.objs), old(shremap.last), early, m', shremap.buf, shremap.objs)
      && CallsKeep(m, old(priv.buf), old(priv.objs), old(priv.last), late, m', priv.buf, priv.objs)
  {
    hide Laid, End, SameBytes, Mapped, IsKernel, Kept, CallsKeep, Apart, MayMap;
    ghost var pb, ps := priv.buf, priv.size;
    ApartBack(pb, ps, shremap.buf, shremap.size);
    var m1 := Run(shremap, m, early, kernel, pb, ps);
    shremap.enabled, priv.enabled := false, true;
    StillMapped(m, pb, m1, ps);
    ApartBack(shremap.buf, shremap.size, pb, ps);
    ghost var sb, ss := shremap.buf, shremap.size;
    var m2 := Run(priv, m1, late, kernel, sb, ss);
    StillMapped(m1, sb, m2, ss);
    var to := place(m2, RemapSize(priv, shremap));
    if to == -1 {
      return -1, m2;
    }
    FreeIsApart(m2, priv.buf, priv.size, to, RemapSize(priv, shremap));
    FreeIsApart(m2, sb, ss, to, RemapSize(priv, shremap));
    ghost var nb := priv.buf;
    Less(m, pb, m1, pb, ps, End(old(priv.objs)));
    KeptBy(m, pb, m1, pb, old(priv.objs));
    RunFrom(m, m1, pb, old(priv.objs), old(priv.last), late, m2, nb, priv.objs);
    ret, m' := Remap(m2, priv, shremap, to, ok, ok2);
    if ret == 0 {
      KeptFrom(m1, m2, m', sb, shremap.buf, ss, shremap.objs);
      RunThen(m, old(shremap.buf), old(shremap.objs), old(shremap.last), early, m1, sb, shremap.objs, m', shremap.buf);
      RunThen(m, pb, old(priv.objs), old(priv.last), late, m2, nb, priv.objs, m', priv.buf);
    }
  }

  // Objects that have kept their content before a run, or keep it after one.
  lemma RunFrom(m: Memory, m1: Memory, buf: nat, objs: seq<Obj>, last: nat, calls: seq<Call>,
                m2: Memory, buf2: nat, objs2: seq<Obj>)
    requires Kept(m, buf, m1, buf, objs) && CallsKeep(m1, buf, objs, last, calls, m2, buf2, objs2)
    ensures CallsKeep(m, buf, objs, last, calls, m2, buf2, objs2)
  {
    hide SameBytes;
    forall i: nat | Outlives(objs, last, calls, i)
      ensures KeptAt(m, buf, objs[i], m2, buf2, objs2, i)
    {
      var a := buf + objs[i].pos;
      assert KeptAt(m1, buf, objs[i], m2, buf2, objs2, i);
      SameAgain(m, a, m1, a, m2, buf2 + objs[i].pos, objs[i].size);
    }
  }

  lemma RunThen(m: Memory, buf: nat, objs: seq<Obj>, last: nat, calls: seq<Call>,
                m1: Memory, buf1: nat, objs1: seq<Obj>, m2: Memory, buf2: nat)
    requires CallsKeep(m, buf, objs, last, calls, m1, buf1, objs1) && Kept(m1, buf1, m2, buf2, objs1)
    ensures CallsKeep(m, buf, objs, last, calls, m2, buf2, objs1)
  {
    hide SameBytes;
    forall i: nat | Outlives(objs, last, calls, i)
      ensures KeptAt(m, buf, objs[i], m2, buf2, objs1, i)
    {
      var pos := objs[i].pos;
      assert KeptAt(m, buf, objs[i], m1, buf1, objs1, i);
      SameAgain(m, buf + pos, m1, buf1 + pos, m2, buf2 + pos, objs[i].size);
    }
  }

  lemma ApartBack(a: nat, n: nat, b: nat, k: nat)
    requires Apart(a, n, b, k)
    ensures Apart(b, k, a, n)
  {
  }

  /** A buffer of objects that are not used by the restorer: RM_SHARED. It never moves; where it is full a new one
      is begun. */
  class SharedBuffer {
    var enabled: bool
    var freeMem: nat
    var freeBytes: nat
    var last: nat

    // The objects that are live, by their address.
    ghost var objs: seq<Obj>

    // Every object is mapped, and apart from the others and from what is free.
    ghost predicate Valid(m: Memory)
      reads this
    {
      && Mapped(m, freeMem, freeBytes)
      && (forall k :: 0 <= k < |objs| ==>
            Mapped(m, objs[k].pos, objs[k].size) && Apart(objs[k].pos, objs[k].size, freeMem, freeBytes))
      && (forall j, k :: 0 <= j < k < |objs| ==> Apart(objs[j].pos, objs[j].size, objs[k].pos, objs[k].size))
      && (last != 0 ==> last <= freeMem && objs != [] && objs[|objs| - 1] == Obj(freeMem - last, last))
    }

    constructor ()
      ensures forall m :: Valid(m)
      ensures enabled && objs == []
    {
      enabled, freeMem, freeBytes, last, objs := true, 0, 0, 0, [];
    }

    // Beginning a new buffer. aux is the kernel's answer.
    method Grow(m: Memory, need: nat, aux: int) returns (ret: int, m': Memory)
      requires Valid(m) && MayMap(m, aux, RstMemGrow(need))
      modifies `freeMem, `freeBytes, `last
      ensures ret == 0 <==> aux != -1
      ensures ret != 0 ==> m' == m && freeBytes == old(freeBytes)
      ensures Valid(m') && Kept(m, 0, m', 0, objs) && Untouched(m, m', 0, 0)
      ensures ret == 0 ==> freeBytes >= need
    {
      hide Mapped, SameBytes;
      m' := m;
      if aux == -1 {
        KeptStill(m, 0, objs);
        UntouchedStill(m, 0, 0);
        return -1, m;
      }
      var n := RstMemGrow(need);
      m' := WithNew(m, aux, n);
      NewUntouched(m, aux, n);
      NewBytes(m, aux, n);
      forall k | 0 <= k < |objs|
        ensures Mapped(m', objs[k].pos, objs[k].size) && Apart(objs[k].pos, objs[k].size, aux, n)
        ensures SameBytes(m, 0 + objs[k].pos, m', 0 + objs[k].pos, objs[k].size)
      {
        NewAround(m, aux, n, objs[k].pos, objs[k].size);
        StillMapped(m, objs[k].pos, m', objs[k].size);
      }
      freeMem, freeBytes, last := aux, n, 0;
      ret := 0;
    }

    // Allocating an object: its address, or 0 if there is no memory.
    method Alloc(m: Memory, n: nat, aux: int) returns (p: nat, m': Memory)
      requires Valid(m) && enabled && MayMap(m, aux, RstMemGrow(n))
      modifies `freeMem, `freeBytes, `last, `objs
      ensures Valid(m') && Kept(m, 0, m', 0, old(objs)) && Untouched(m, m', 0, 0)
      ensures if old(freeBytes) < n && aux == -1 then p == 0 && objs == old(objs) && m' == m
              else objs == old(objs) + [Obj(p, n)]
    {
      hide SameBytes, Untouched, Kept;
      m' := m;
      KeptStill(m, 0, objs);
      UntouchedStill(m, 0, 0);
      if freeBytes < n {
        var ret;
        ret, m' := Grow(m, n, aux);
        if ret != 0 {
          return 0, m';
        }
      }
      p := freeMem;
      Split(m', freeMem, freeBytes, n);
      freeMem := freeMem + n;
      freeBytes := freeBytes - n;
      last := n;
      objs := objs + [Obj(p, n)];
    }

    // Freeing the object that was allocated last, once.
    method FreeLast(ghost m: Memory)
      requires Valid(m) && enabled
      modifies `freeMem, `freeBytes, `last, `objs
      ensures Valid(m) && last == 0
      ensures objs == if old(last) == 0 then old(objs) else old(objs)[..|old(objs)| - 1]
    {
      if last != 0 {
        Join(m, freeMem, freeBytes, last);
      }
      freeMem := freeMem - last;
      freeBytes := freeBytes + last;
      objs := if last == 0 then objs else objs[..|objs| - 1];
      last := 0;
    }
  }

  lemma StillMapped(m: Memory, a: nat, m': Memory, n: nat)
    requires Mapped(m, a, n) && SameBytes(m, a, m', a, n)
    ensures Mapped(m', a, n)
  {
    forall i: nat | i < n ensures ByteAt(m', a, i).Some? {
      assert ByteAt(m', a, i) == ByteAt(m, a, i);
    }
  }

  lemma Split(m: Memory, a: nat, k: nat, n: nat)
    requires Mapped(m, a, k) && n <= k
    ensures Mapped(m, a, n) && Mapped(m, a + n, k - n)
  {
    var b := a + n;
    forall i: nat | i < k - n ensures ByteAt(m, b, i).Some? {
      assert ByteAt(m, a, n + i) == ByteAt(m, b, i);
    }
  }

  lemma Join(m: Memory, a: nat, k: nat, n: nat)
    requires Mapped(m, a, k) && n <= a && Mapped(m, a - n, n)
    ensures Mapped(m, a - n, n + k)
  {
    var b := a - n;
    forall i: nat | i < n + k ensures ByteAt(m, b, i).Some? {
      assert i >= n ==> ByteAt(m, a, i - n) == ByteAt(m, b, i);
    }
  }
}
