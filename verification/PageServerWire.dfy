/** The messages a page server is sent (page-xfer.c). */
module PageServerWire {
  import opened PageImages

  const PS_IOV_ADD: nat := 1
  const PS_IOV_HOLE: nat := 2
  const PS_IOV_OPEN: nat := 3
  const PS_IOV_FLUSH: nat := 0x1023

  const TWO_56: nat := 0x100_0000_0000_0000
  const TWO_64: nat := 0x1_0000_0000_0000_0000

  // struct page_server_iov
  datatype Msg = Msg(cmd: nat, nrPages: nat, vaddr: nat, dstId: nat)

  const MSG_SIZE: nat := 24

  // A little-endian number of so many bytes; what does not fit is cut off.
  function LittleEndian(n: nat, width: nat): (r: seq<Byte>)
    ensures |r| == width
  {
    if width == 0 then [] else [(n % 256) as Byte] + LittleEndian(n / 256, width - 1)
  }

  function Number(s: seq<Byte>): nat {
    if s == [] then 0 else s[0] as nat + 256 * Number(s[1..])
  }

  function Pow256(w: nat): nat {
    if w == 0 then 1 else 256 * Pow256(w - 1)
  }

  lemma {:induction false} NumberRoundTrip(n: nat, width: nat)
    requires n < Pow256(width)
    ensures Number(LittleEndian(n, width)) == n
  {
    if width > 0 {
      NumberRoundTrip(n / 256, width - 1);
      assert LittleEndian(n, width)[1..] == LittleEndian(n / 256, width - 1);
    }
  }

  function EncodeMsg(m: Msg): (r: seq<Byte>)
    ensures |r| == MSG_SIZE
  {
    LittleEndian(m.cmd, 4) + LittleEndian(m.nrPages, 4) + LittleEndian(m.vaddr, 8) + LittleEndian(m.dstId, 8)
  }

  function DecodeMsg(s: seq<Byte>): Msg
    requires |s| == MSG_SIZE
  {
    Msg(Number(s[..4]), Number(s[4..8]), Number(s[8..16]), Number(s[16..]))
  }

  // The fields of a message fit their widths.
  predicate Fits(m: Msg) {
    m.cmd < TWO_32 && m.nrPages < TWO_32 && m.vaddr < TWO_64 && m.dstId < TWO_64
  }

  lemma MsgRoundTrip(m: Msg)
    requires Fits(m)
    ensures DecodeMsg(EncodeMsg(m)) == m
  {
    var s := EncodeMsg(m);
    assert s[..4] == LittleEndian(m.cmd, 4);
    assert s[4..8] == LittleEndian(m.nrPages, 4);
    assert s[8..16] == LittleEndian(m.vaddr, 8);
    assert s[16..] == LittleEndian(m.dstId, 8);
    assert Pow256(4) == TWO_32 && Pow256(8) == TWO_64;
    NumberRoundTrip(m.cmd, 4);
    NumberRoundTrip(m.nrPages, 4);
    NumberRoundTrip(m.vaddr, 8);
    NumberRoundTrip(m.dstId, 8);
  }

  lemma LowByte(n: nat, width: nat)
    requires width > 0
    ensures LittleEndian(n, width) == [(n % 256) as Byte] + LittleEndian(n / 256, width - 1)
  {
  }

  lemma {:induction false} ZeroBytes(width: nat)
    ensures LittleEndian(0, width) == seq(width, _ => 0 as Byte)
  {
    if width > 0 {
      ZeroBytes(width - 1);
    }
  }

  // A number below 256 is one byte and zeros.
  lemma {:induction false} OneByte(n: nat, width: nat)
    requires n < 256 && width > 0
    ensures LittleEndian(n, width) == [n as Byte] + seq(width - 1, _ => 0 as Byte)
  {
    hide LittleEndian;
    LowByte(n, width);
    ZeroBytes(width - 1);
  }

  // A message byte by byte: a hole of three pages at 0x12345000, in the pagemap of type 7 and task 2.
  lemma OnTheWire()
    ensures EncodeMsg(Msg(PS_IOV_HOLE, 3, 0x1234_5000, EncodePmId(7, 2)))
            == [2, 0, 0, 0] + [3, 0, 0, 0] + [0, 0x50, 0x34, 0x12, 0, 0, 0, 0] + [7, 2, 0, 0, 0, 0, 0, 0]
    ensures PS_IOV_ADD == 1 && PS_IOV_OPEN == 3 && PS_IOV_FLUSH == 0x1023
  {
    EncodedAs(7, 2);
    hide LittleEndian, EncodePmId;
    OneByte(2, 4);
    OneByte(3, 4);
    LowByte(0x207, 8);
    OneByte(2, 7);
    LowByte(0x1234_5000, 8);
    LowByte(0x12_3450, 7);
    LowByte(0x1234, 6);
    OneByte(0x12, 5);
    assert LittleEndian(0x207, 8) == [7, 2, 0, 0, 0, 0, 0, 0];
    assert LittleEndian(0x1234_5000, 8) == [0, 0x50, 0x34, 0x12, 0, 0, 0, 0];
    assert LittleEndian(2, 4) == [2, 0, 0, 0] && LittleEndian(3, 4) == [3, 0, 0, 0];
  }

  function BitOr(a: nat, b: nat): nat {
    if a == 0 then b
    else if b == 0 then a
    else 2 * BitOr(a / 2, b / 2) + if a % 2 == 1 || b % 2 == 1 then 1 else 0
  }

  // The id of a pagemap on the wire: the image type in the low eight bits, the id of a task above.
  function EncodePmId(fdType: int, id: int): nat {
    BitOr(id * 256 % TWO_64, fdType % TWO_64)
  }

  function DecodePmType(dst: nat): int {
    dst % 256
  }

  function DecodePmId(dst: nat): int {
    dst / 256
  }

  function ShiftLeft(c: nat, k: nat): nat {
    if k == 0 then c else 2 * ShiftLeft(c, k - 1)
  }

  lemma {:induction false} OrBelow(c: nat, k: nat, b: nat)
    requires b < ShiftLeft(1, k)
    ensures BitOr(ShiftLeft(c, k), b) == ShiftLeft(c, k) + b
    decreases k
  {
    if k > 0 {
      OrBelow(c, k - 1, b / 2);
    }
  }

  lemma {:induction false} ShiftLeft8(c: nat)
    ensures ShiftLeft(c, 8) == 256 * c
  {
    assert ShiftLeft(c, 1) == 2 * ShiftLeft(c, 0);
    assert ShiftLeft(c, 2) == 2 * ShiftLeft(c, 1);
    assert ShiftLeft(c, 3) == 2 * ShiftLeft(c, 2);
    assert ShiftLeft(c, 4) == 2 * ShiftLeft(c, 3);
    assert ShiftLeft(c, 5) == 2 * ShiftLeft(c, 4);
    assert ShiftLeft(c, 6) == 2 * ShiftLeft(c, 5);
    assert ShiftLeft(c, 7) == 2 * ShiftLeft(c, 6);
  }

  lemma ShiftedId(id: int)
    ensures id * 256 % TWO_64 == 256 * (id % TWO_56)
  {
    var q, r := id / TWO_56, id % TWO_56;
    assert id * 256 == q * TWO_64 + 256 * r;
  }

  lemma EncodedAs(fdType: int, id: int)
    requires 0 <= fdType < 256
    ensures EncodePmId(fdType, id) == 256 * (id % TWO_56) + fdType
  {
    hide BitOr, ShiftLeft;
    var r := id % TWO_56;
    ShiftedId(id);
    ShiftLeft8(r);
    ShiftLeft8(1);
    OrBelow(r, 8, fdType);
  }

  /** The two fields of a pagemap id come back exactly when the type fits eight bits
      and the id is a natural number of at most 56. */
  lemma PmIdRoundTrip(fdType: int, id: int)
    ensures var dst := EncodePmId(fdType, id);
            DecodePmType(dst) == fdType && DecodePmId(dst) == id <==> 0 <= fdType < 256 && 0 <= id < TWO_56
    ensures 0 <= fdType < 256 && 0 <= id < TWO_56 ==> EncodePmId(fdType, id) == id * 256 + fdType
  {
    hide EncodePmId;
    if 0 <= fdType < 256 {
      EncodedAs(fdType, id);
    }
  }

  // The bytes of pages one after another.
  function PageBytes(pages: seq<Page>): seq<Byte> {
    if pages == [] then [] else PageBytes(pages[..|pages| - 1]) + pages[|pages| - 1].bytes
  }
}
