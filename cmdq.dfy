/**
 * The command-queue ring of glamo-cmdq.c.  The driver stages 16-bit command words in
 * `cmd_queue` and GLAMODispatchCMDQ copies them into a 256 KiB ring in video memory that
 * the chip reads on its own.  The write pointer lives in two 16-bit registers; the read
 * pointer, which the chip advances, is an input here (`Poll`), as is the status word the
 * engine wait reads: each busy-wait loop becomes the precondition that its exit test holds.
 */
module Cmdq {
  import opened Bits
  import opened Glamo
  import Engine

  const CQ_LEN: u16 := 255
  /** The ring length GLAMOCMDQInit stores in ring_len. */
  const RING_LEN: nat := (CQ_LEN + 1) * 1024
  const CQ_MASK: nat := (CQ_LEN + 1) * 1024 - 1
  /** CQ_MASK & 0xffff and CQ_MASK >> 16, by value: MaskValues relates them to CQ_MASK. */
  const CQ_MASKL: nat := 0xffff
  const CQ_MASKH: nat := 3

  /** The ring is 2^18 bytes, so CQ_MASK keeps 18 bits: 16 in the low register, 2 in the high one. */
  lemma MaskValues()
    ensures RING_LEN == 0x4_0000 == Pow2(18) && CQ_MASK == Pow2(18) - 1
    ensures CQ_MASKL == CQ_MASK % Pow2(16) == Pow2(16) - 1
    ensures CQ_MASKH == CQ_MASK / Pow2(16) == Pow2(2) - 1
  {
    Pow2Values();
  }

  // ---------------------------------------------------------------- pointer arithmetic

  /** new_ring_write as first computed: (((w + count) & CQ_MASK) + 1) & ~1. */
  function NewRingWrite(w: nat, count: nat): nat
  {
    AndNot(And(w + count, CQ_MASK) + 1, 1)
  }

  /** For any inputs: (w + count) mod ring_len, rounded up to an even number. */
  lemma NewRingWriteValue(w: nat, count: nat)
    ensures var x := (w + count) % RING_LEN;
      NewRingWrite(w, count) == x + 1 - (x + 1) % 2
  {
    MaskValues();
    AndLowMask(w + count, 18);
    AndNotOne(And(w + count, CQ_MASK) + 1);
  }

  /** For even w and count the rounding does nothing: the result is (w + count) mod ring_len. */
  lemma NewRingWriteEven(w: nat, count: nat)
    requires w % 2 == 0 && count % 2 == 0
    ensures NewRingWrite(w, count) == (w + count) % RING_LEN
    ensures NewRingWrite(w, count) % 2 == 0 && NewRingWrite(w, count) < RING_LEN
  {
    NewRingWriteValue(w, count);
    MaskValues();
    var y := w + count;
    var q, x := y / 0x4_0000, y % 0x4_0000;
    var k := 0x2_0000 * q;
    assert x == y - 2 * k;
    assert y == 2 * (y / 2);
    assert x % 2 == 0 by {
      DivModUnique(x, 2, y / 2 - k, 0);
    }
    assert (x + 1) % 2 == 1 by {
      DivModUnique(x + 1, 2, y / 2 - k, 1);
    }
  }

  /** The position i bytes past w, wrapping at the end of the ring. */
  function RingPos(w: nat, i: nat): nat
  {
    if w + i < RING_LEN then w + i else w + i - RING_LEN
  }

  /** How far position j lies past w, going round the ring. */
  function Offset(w: nat, j: nat): nat
    requires w < RING_LEN
  {
    if j >= w then j - w else j + RING_LEN - w
  }

  lemma RingPosMod(w: nat, i: nat)
    requires w < RING_LEN && i <= RING_LEN
    ensures RingPos(w, i) == (w + i) % RING_LEN
  {
    if w + i < RING_LEN {
      DivModUnique(w + i, RING_LEN, 0, w + i);
    } else {
      DivModUnique(w + i, RING_LEN, 1, w + i - RING_LEN);
    }
  }

  /**
   * The dispatch wraps (new_ring_write <= ring_write) exactly when the payload
   * reaches the end of the ring; the new pointer is then the payload's end position.
   */
  lemma WrapIff(w: nat, count: nat)
    requires w % 2 == 0 && count % 2 == 0 && w < RING_LEN && 0 < count <= RING_LEN
    ensures NewRingWrite(w, count) <= w <==> w + count >= RING_LEN
    ensures NewRingWrite(w, count) == RingPos(w, count)
  {
    NewRingWriteEven(w, count);
    RingPosMod(w, count);
  }

  /** The read pointer as lines 91-92 assemble it: 16 low bits and 2 high bits. */
  function RingRead(readL: u16, readH: u16): nat
  {
    Or(And(readL, CQ_MASKL), Shl(And(readH, CQ_MASKH), 16))
  }

  lemma RingReadValue(readL: u16, readH: u16)
    ensures RingRead(readL, readH) == Shl(readH % 4, 16) + readL
    ensures RingRead(readL, readH) < RING_LEN
  {
    Pow2Values();
    AndLowMask(readL, 16);
    AndLowMask(readH, 2);
    DivModUnique(readL, 0x1_0000, 0, readL);
    var l, h := And(readL, CQ_MASKL), And(readH, CQ_MASKH);
    assert l == readL % 0x1_0000 == readL;
    assert h == readH % 4;
    JoinHalves(l, h);
    assert RingRead(readL, readH) == h * 0x1_0000 + l;
  }

  /** The write pointer as lines 84-85 read it back: low register | high register << 16, unmasked. */
  function RingWrite(writeL: u16, writeH: u16): nat
  {
    Or(writeL, Shl(writeH, 16))
  }

  /** The values lines 130-133 write to WRITE_ADDRH and WRITE_ADDRL. */
  function PublishedH(n: nat): u16
  {
    MaskValues();
    And(Shr(n, 16), CQ_MASKH)
  }

  function PublishedL(n: nat): u16
  {
    MaskValues();
    And(n, CQ_MASKL)
  }

  /** Reading the published pointer back gives new & CQ_MASK, that is new mod ring_len. */
  lemma Readback(n: nat)
    ensures RingWrite(PublishedL(n), PublishedH(n)) == And(n, CQ_MASK)
    ensures RingWrite(PublishedL(n), PublishedH(n)) == n % RING_LEN
  {
    MaskValues();
    var lo, hi := PublishedL(n), PublishedH(n);
    assert Or(Shl(hi, 16), lo) == n % RING_LEN by {
      assert lo == And(n, Pow2(16) - 1);
      assert hi == And(Shr(n, 16), Pow2(2) - 1);
      SplitJoin(n, 16, 2);
    }
    OrComm(lo, Shl(hi, 16));
    AndLowMask(n, 18);
  }

  // ---------------------------------------------------------------- waiting for room

  /** The do-while loops of lines 89-99 stop at the first read pointer for which this holds. */
  predicate RingWaitDone(w: nat, newWrite: nat, read: nat)
  {
    if newWrite > w then !(read > w && read < newWrite)
    else !(read > w || read < newWrite)
  }

  /** The number of bytes from w up to newWrite, going round the ring; a full turn when they meet. */
  function Span(w: nat, newWrite: nat): nat
    requires w < RING_LEN
  {
    if newWrite > w then newWrite - w else RING_LEN - w + newWrite
  }

  /** In both cases the wait ends once the reader is not strictly inside the span about to be written. */
  lemma WaitDoneMeaning(w: nat, newWrite: nat, read: nat)
    requires w < RING_LEN && newWrite <= RING_LEN && read < RING_LEN
    ensures RingWaitDone(w, newWrite, read) <==> !(0 < Offset(w, read) < Span(w, newWrite))
  {
  }

  /** With the dispatcher's pointer, the span is the payload: the reader is outside the count bytes after w. */
  lemma WaitGuardsPayload(w: nat, count: nat, read: nat)
    requires w % 2 == 0 && count % 2 == 0 && w < RING_LEN && 0 < count <= RING_LEN && read < RING_LEN
    ensures RingWaitDone(w, NewRingWrite(w, count), read) <==> !(0 < Offset(w, read) < count)
  {
    WrapIff(w, count);
    WaitDoneMeaning(w, NewRingWrite(w, count), read);
  }

  // ---------------------------------------------------------------- the ring after a dispatch

  /** The ring with payload p laid down from w onwards, wrapping at the end. */
  function Placed(ring: seq<u8>, w: nat, p: seq<u8>): (r: seq<u8>)
    requires |ring| == RING_LEN && w < RING_LEN && |p| <= RING_LEN
    ensures |r| == RING_LEN
  {
    seq(RING_LEN, j requires 0 <= j < RING_LEN => if Offset(w, j) < |p| then p[Offset(w, j)] else ring[j])
  }

  /** Four bytes zeroed at `at`. */
  function Zero4(ring: seq<u8>, at: nat): (r: seq<u8>)
    requires at + 4 <= |ring|
    ensures |r| == |ring|
  {
    Zeroed(ring, at, 4)
  }

  /** The pointer after the first fixup (line 110-113). */
  function FirstFix(n: nat): nat
  {
    if n == 0 then 4 else n
  }

  /** The second fixup's four zero bytes stay inside the ring. */
  predicate FixupInRing(w: nat, count: nat)
  {
    var n := NewRingWrite(w, count);
    w >= n && w == FirstFix(n) ==> FirstFix(n) + 4 <= RING_LEN
  }

  /** The write pointer the dispatch publishes, before masking. */
  function FinalWrite(w: nat, count: nat): nat
  {
    var n := NewRingWrite(w, count);
    if w >= n then (if w == FirstFix(n) then FirstFix(n) + 4 else FirstFix(n)) else n
  }

  /** Position j is zeroed by one of the fixups of the wrap branch. */
  predicate Fixed(w: nat, count: nat, j: nat)
  {
    var n := NewRingWrite(w, count);
    w >= n && ((n == 0 && j < 4) || (w == FirstFix(n) && FirstFix(n) <= j < FirstFix(n) + 4))
  }

  /** The ring after dispatching payload p with the write pointer at w. */
  function DispatchRing(ring: seq<u8>, w: nat, p: seq<u8>): (r: seq<u8>)
    requires |ring| == RING_LEN && w < RING_LEN && |p| <= RING_LEN && FixupInRing(w, |p|)
    ensures |r| == RING_LEN
  {
    var n := NewRingWrite(w, |p|);
    var placed := Placed(ring, w, p);
    if w >= n then
      var r1 := if n == 0 then Zero4(placed, 0) else placed;
      if w == FirstFix(n) then Zero4(r1, FirstFix(n)) else r1
    else placed
  }

  /** Every byte of the ring after a dispatch: fixup zero, payload byte, or the old byte. */
  lemma DispatchRingAt(ring: seq<u8>, w: nat, p: seq<u8>, j: nat)
    requires |ring| == RING_LEN && w < RING_LEN && |p| <= RING_LEN && FixupInRing(w, |p|) && j < RING_LEN
    ensures DispatchRing(ring, w, p)[j] ==
      if Fixed(w, |p|, j) then 0 else if Offset(w, j) < |p| then p[Offset(w, j)] else ring[j]
  {
    var n := NewRingWrite(w, |p|);
    var placed := Placed(ring, w, p);
    if w >= n {
      var r1 := if n == 0 then Zero4(placed, 0) else placed;
      if n == 0 {
        ZeroedAt(placed, 0, 4, j);
      }
      if w == FirstFix(n) {
        ZeroedAt(r1, FirstFix(n), 4, j);
      }
    }
  }

  /** Byte i of the payload lands at w + i (mod ring_len) and survives the fixups, except when the write goes all the way round. */
  lemma PayloadIntact(ring: seq<u8>, w: nat, p: seq<u8>, i: nat)
    requires |ring| == RING_LEN && w % 2 == 0 && w < RING_LEN && |p| % 2 == 0 && 0 < |p| <= RING_LEN
    requires FixupInRing(w, |p|) && i < |p|
    requires !(|p| == RING_LEN || (w + |p| == RING_LEN && w <= 4))
    ensures RingPos(w, i) == (w + i) % RING_LEN
    ensures DispatchRing(ring, w, p)[RingPos(w, i)] == p[i]
  {
    RingPosMod(w, i);
    WrapIff(w, |p|);
    DispatchRingAt(ring, w, p, RingPos(w, i));
  }

  /** When the write goes all the way round, a fixup zeroes the first payload byte. */
  lemma FixupClobbers(w: nat, count: nat)
    requires w % 2 == 0 && w < RING_LEN && count % 2 == 0 && 0 < count <= RING_LEN
    requires count == RING_LEN || (w + count == RING_LEN && w <= 4)
    ensures Fixed(w, count, w)
  {
    WrapIff(w, count);
  }

  /** The second fixup stays in the ring except for a full-ring payload written from ring_len - 2. */
  lemma FixupInRingIff(w: nat, count: nat)
    requires w % 2 == 0 && w < RING_LEN && count % 2 == 0 && 0 < count <= RING_LEN
    ensures FixupInRing(w, count) <==> !(count == RING_LEN && w == RING_LEN - 2)
  {
    WrapIff(w, count);
  }

  /**
   * The anti-deadlock fixups of the wrap branch: the unmasked pointer is neither 0 nor w.
   * Once masked, the published pointer always differs from w, and it is 0 only when a
   * full-ring payload is written from ring_len - 4.
   */
  lemma FinalWriteFacts(w: nat, count: nat)
    requires w % 2 == 0 && w < RING_LEN && count % 2 == 0 && 0 < count <= RING_LEN
    requires FixupInRing(w, count)
    ensures FinalWrite(w, count) % 2 == 0 && 0 < FinalWrite(w, count) <= RING_LEN
    ensures w + count < RING_LEN ==> FinalWrite(w, count) == w + count
    ensures w + count >= RING_LEN ==> FinalWrite(w, count) != 0 && FinalWrite(w, count) != w
    ensures FinalWrite(w, count) % RING_LEN == if FinalWrite(w, count) == RING_LEN then 0 else FinalWrite(w, count)
    ensures FinalWrite(w, count) % RING_LEN != w
    ensures FinalWrite(w, count) % RING_LEN == 0 <==> (w == RING_LEN - 4 && count == RING_LEN)
  {
    WrapIff(w, count);
    var f := FinalWrite(w, count);
    if f == RING_LEN {
      DivModUnique(f, RING_LEN, 1, 0);
    } else {
      DivModUnique(f, RING_LEN, 0, f);
    }
  }

  // ---------------------------------------------------------------- the dispatcher

  /** The values the last iteration of each wait loop reads: read pointer halves and status word. */
  datatype Poll = Poll(readL: u16, readH: u16, status: u16)

  function WritePointer(mmio: Mmio): nat
    reads mmio
    requires mmio.Valid()
  {
    RingWrite(mmio.regs[CmdqWriteAddrL], mmio.regs[CmdqWriteAddrH])
  }

  /** The state the dispatcher relies on: a ring and a staging buffer of ring_len bytes, an even write pointer inside the ring. */
  ghost predicate Ready(g: GlamoRec)
    reads g, g.regBase, g.cmdQueue
  {
    g.regBase != null && g.regBase.Valid() &&
    g.ring != null && g.ring.Length == RING_LEN && g.ringLen == RING_LEN &&
    g.cmdQueue != null && g.cmdQueue.Valid() && g.cmdQueue.size == RING_LEN && g.cmdQueue.data != g.ring &&
    g.cmdQueue.used <= g.cmdQueue.size && g.cmdQueue.used % 2 == 0 &&
    WritePointer(g.regBase) < RING_LEN && WritePointer(g.regBase) % 2 == 0
  }

  /** Both wait loops of a non-empty dispatch have ended, and the second fixup stays in the ring. */
  ghost predicate CanDispatch(g: GlamoRec, poll: Poll)
    reads g, g.regBase, g.cmdQueue
    requires Ready(g)
  {
    var w := WritePointer(g.regBase);
    var count := g.cmdQueue.used;
    FixupInRing(w, count) &&
    RingWaitDone(w, NewRingWrite(w, count), RingRead(poll.readL, poll.readH)) &&
    Engine.WaitDone(Engine.All, poll.status)
  }

  lemma OnePartCopyPlaced(r0: seq<u8>, w: nat, p: seq<u8>)
    requires |r0| == RING_LEN && w + |p| < RING_LEN
    ensures r0[..w] + p + r0[w + |p|..] == Placed(r0, w, p)
  {
    var s := r0[..w] + p + r0[w + |p|..];
    forall j | 0 <= j < RING_LEN ensures s[j] == Placed(r0, w, p)[j] {
    }
  }

  lemma TwoPartCopyPlaced(r0: seq<u8>, w: nat, p: seq<u8>)
    requires |r0| == RING_LEN && w < RING_LEN && w + |p| >= RING_LEN && |p| <= RING_LEN
    ensures var rest := RING_LEN - w;
      var tail := r0[..w] + p[..rest] + r0[w + rest..];
      p[rest..] + tail[|p| - rest..] == Placed(r0, w, p)
  {
    var rest := RING_LEN - w;
    var tail := r0[..w] + p[..rest] + r0[w + rest..];
    var s := p[rest..] + tail[|p| - rest..];
    forall j | 0 <= j < RING_LEN ensures s[j] == Placed(r0, w, p)[j] {
    }
  }

  /** Lines 101-122: the copy into the ring and the fixups; returns the final new_ring_write. */
  method CopyIn(ring: array<u8>, data: array<u8>, w: nat, count: nat) returns (nw: nat)
    requires ring != data && ring.Length == RING_LEN && count <= data.Length
    requires w % 2 == 0 && w < RING_LEN && count % 2 == 0 && 0 < count <= RING_LEN
    requires FixupInRing(w, count)
    modifies ring
    ensures ring[..] == DispatchRing(old(ring[..]), w, data[..count])
    ensures nw == FinalWrite(w, count)
  {
    nw := NewRingWrite(w, count);
    WrapIff(w, count);
    if w >= nw {
      nw := CopyWrapped(ring, data, w, count);
    } else {
      ghost var p := data[..count];
      ghost var r0 := ring[..];
      MemCpy(ring, w, data, 0, count);
      OnePartCopyPlaced(r0, w, p);
    }
  }

  /** Lines 103-105: the payload copied in two parts, up to the end of the ring and then from its start. */
  method CopyAround(ring: array<u8>, data: array<u8>, w: nat, count: nat)
    requires ring != data && ring.Length == RING_LEN && count <= data.Length
    requires w < RING_LEN && count <= RING_LEN && w + count >= RING_LEN
    modifies ring
    ensures ring[..] == Placed(old(ring[..]), w, data[..count])
  {
    ghost var p := data[..count];
    ghost var r0 := ring[..];
    var restSize := RING_LEN - w;
    MemCpy(ring, w, data, 0, restSize);
    ghost var tail := ring[..];
    assert tail == r0[..w] + p[..restSize] + r0[w + restSize..] by {
      assert data[0..restSize] == p[..restSize];
    }
    MemCpy(ring, 0, data, restSize, count - restSize);
    assert ring[..] == data[restSize..count] + tail[count - restSize..];
    assert data[restSize..count] == p[restSize..];
    TwoPartCopyPlaced(r0, w, p);
  }

  /** Lines 102-119: the copy that wraps past the end of the ring, then the two fixups. */
  method CopyWrapped(ring: array<u8>, data: array<u8>, w: nat, count: nat) returns (nw: nat)
    requires ring != data && ring.Length == RING_LEN && count <= data.Length
    requires w % 2 == 0 && w < RING_LEN && count % 2 == 0 && 0 < count <= RING_LEN
    requires FixupInRing(w, count) && w >= NewRingWrite(w, count)
    modifies ring
    ensures ring[..] == DispatchRing(old(ring[..]), w, data[..count])
    ensures nw == FinalWrite(w, count)
  {
    ghost var p := data[..count];
    ghost var r0 := ring[..];
    nw := NewRingWrite(w, count);
    WrapIff(w, count);
    CopyAround(ring, data, w, count);
    ghost var placed := Placed(r0, w, p);
    ghost var n0 := nw;
    if nw == 0 {
      MemSet(ring, 0, 4);
      nw := 4;
    }
    ghost var r1 := if n0 == 0 then Zero4(placed, 0) else placed;
    assert ring[..] == r1 && nw == FirstFix(n0);
    if w == nw {
      MemSet(ring, nw, 4);
      nw := nw + 4;
    }
    assert ring[..] == (if w == FirstFix(n0) then Zero4(r1, FirstFix(n0)) else r1);
  }

  /** Lines 126-137: the 2D M6 clock off, the pointer published high half first, the clock on again. */
  method Publish(mmio: Mmio, nw: nat)
    requires mmio.Valid()
    modifies mmio
    ensures mmio.Valid()
    ensures var c := old(mmio.regs[Clock2D]);
      var m6 := Engine.CLOCK_2D_EN_M6CLK;
      mmio.regs == old(mmio.regs)[Clock2D := Or16(c, m6)]
        [CmdqWriteAddrH := PublishedH(nw)][CmdqWriteAddrL := PublishedL(nw)] &&
      mmio.trace == old(mmio.trace) +
        [(Clock2D, AndNot(c, m6)), (CmdqWriteAddrH, PublishedH(nw)),
         (CmdqWriteAddrL, PublishedL(nw)), (Clock2D, Or16(c, m6))]
  {
    ghost var c := mmio.regs[Clock2D];
    mmio.SetBitMask(Clock2D, Engine.CLOCK_2D_EN_M6CLK, 0);
    mmio.Out16(CmdqWriteAddrH, PublishedH(nw));
    mmio.Out16(CmdqWriteAddrL, PublishedL(nw));
    mmio.SetBitMask(Clock2D, Engine.CLOCK_2D_EN_M6CLK, 0xffff);
    ClearAll(c, Engine.CLOCK_2D_EN_M6CLK);
    ClearThenSet(c, Engine.CLOCK_2D_EN_M6CLK);
  }

  /**
   * What a dispatch of the staged bytes p does, from ring, registers and write trace
   * (ring0, regs0, trace0) to (ring1, regs1, trace1): p is copied into the ring at the
   * write pointer with the fixups, and the M6 clock is switched off around the
   * publication of the new write pointer.
   */
  ghost predicate DispatchEffect(ring0: seq<u8>, regs0: map<Reg, u16>, trace0: seq<(Reg, u16)>, p: seq<u8>,
                                 ring1: seq<u8>, regs1: map<Reg, u16>, trace1: seq<(Reg, u16)>)
    requires forall r: Reg :: r in regs0
  {
    var w := RingWrite(regs0[CmdqWriteAddrL], regs0[CmdqWriteAddrH]);
    var nw := FinalWrite(w, |p|);
    var c := regs0[Clock2D];
    var m6 := Engine.CLOCK_2D_EN_M6CLK;
    w < RING_LEN && |ring0| == RING_LEN && |p| <= RING_LEN && FixupInRing(w, |p|) &&
    ring1 == DispatchRing(ring0, w, p) &&
    regs1 == regs0[Clock2D := Or16(c, m6)][CmdqWriteAddrH := PublishedH(nw)][CmdqWriteAddrL := PublishedL(nw)] &&
    trace1 == trace0 +
      [(Clock2D, AndNot(c, m6)), (CmdqWriteAddrH, PublishedH(nw)), (CmdqWriteAddrL, PublishedL(nw)), (Clock2D, Or16(c, m6))]
  }

  /** GLAMODispatchCMDQ */
  method Dispatch(g: GlamoRec, poll: Poll)
    requires Ready(g)
    requires g.cmdQueue.used > 0 ==> CanDispatch(g, poll)
    modifies g.ring, g.regBase, g.cmdQueue, g`submitted
    ensures Ready(g)
    ensures g.cmdQueue.size == old(g.cmdQueue.size) && g.cmdQueue.data == old(g.cmdQueue.data)
    ensures g.cmdQueue.used == 0
    ensures old(g.cmdQueue.used) == 0 ==>
      g.ring[..] == old(g.ring[..]) && g.regBase.regs == old(g.regBase.regs) &&
      g.regBase.trace == old(g.regBase.trace) && g.submitted == old(g.submitted)
    ensures old(g.cmdQueue.used) > 0 ==>
      DispatchEffect(old(g.ring[..]), old(g.regBase.regs), old(g.regBase.trace), old(g.cmdQueue.data[..g.cmdQueue.used]),
                     g.ring[..], g.regBase.regs, g.regBase.trace) &&
      g.submitted == old(g.submitted) + old(g.cmdQueue.data[..g.cmdQueue.used])
  {
    var buf := g.cmdQueue;
    var mmio := g.regBase;
    if buf.used == 0 {
      return;
    }
    var count := buf.used;
    var ringWrite: nat := mmio.In16(CmdqWriteAddrL);
    ringWrite := Or(ringWrite, Shl(mmio.In16(CmdqWriteAddrH), 16));
    // the wait of lines 88-99 has ended: CanDispatch states its exit test for poll
    var newRingWrite := CopyIn(g.ring, buf.data, ringWrite, count);
    // GLAMOEngineWait(pGlamo, GLAMO_ENGINE_ALL) has ended: CanDispatch states its exit test for poll.status
    Publish(mmio, newRingWrite);
    buf.used := 0;
    g.submitted := g.submitted + buf.data[..count];
    FinalWriteFacts(ringWrite, count);
    Readback(newRingWrite);
    assert WritePointer(mmio) == newRingWrite % RING_LEN;
  }

  // ---------------------------------------------------------------- reset and initialisation

  /** CMDQ_BASE_ADDRL and CMDQ_BASE_ADDRH as GLAMOCMDQResetCP writes them. */
  function BaseLow(start: nat): u16
  {
    Pow2Values();
    And(start, 0xffff)
  }

  function BaseHigh(start: nat): u16
  {
    And(Shr(start, 16), 0x7f)
  }

  /** The two base registers hold the low 23 bits of ring_start. */
  lemma BaseSplit(start: nat)
    ensures Or(Shl(BaseHigh(start), 16), BaseLow(start)) == start % Pow2(23)
  {
    Pow2Values();
    SplitJoin(start, 16, 7);
  }

  /** The CMDQ_CONTROL word, 1 << 12 | 5 << 8 | 8 << 4, by value: ControlValue computes it. */
  const CMDQ_CONTROL: u16 := 0x1580

  lemma ControlValue()
    ensures Or(Or(Shl(1, 12), Shl(5, 8)), Shl(8, 4)) == CMDQ_CONTROL
  {
    Pow2Values();
    assert Pow2(12) == 0x1000 && Pow2(4) == 0x10;
    OrDisjoint(1, Shl(5, 8), 12);
    assert Shl(0x15, 8) == 0x1500;
    OrDisjoint(0x15, Shl(8, 4), 8);
  }

  /** The register file after GLAMOCMDQResetCP, from the one after the engine reset and ring_start. */
  function ProgramRegs(regs: map<Reg, u16>, start: nat): map<Reg, u16>
  {
    regs[CmdqBaseAddrL := BaseLow(start)][CmdqBaseAddrH := BaseHigh(start)][CmdqLen := CQ_LEN]
      [CmdqWriteAddrH := 0][CmdqWriteAddrL := 0][CmdqReadAddrH := 0][CmdqReadAddrL := 0]
      [CmdqControl := CMDQ_CONTROL]
  }

  /** The register writes of GLAMOCMDQResetCP that follow the engine reset. */
  function ProgramWrites(start: nat): seq<(Reg, u16)>
  {
    [(CmdqBaseAddrL, BaseLow(start)), (CmdqBaseAddrH, BaseHigh(start)), (CmdqLen, CQ_LEN),
     (CmdqWriteAddrH, 0), (CmdqWriteAddrL, 0), (CmdqReadAddrH, 0), (CmdqReadAddrL, 0),
     (CmdqControl, CMDQ_CONTROL)]
  }

  method ProgramQueue(mmio: Mmio, start: nat)
    requires mmio.Valid()
    modifies mmio
    ensures mmio.Valid()
    ensures mmio.regs == ProgramRegs(old(mmio.regs), start)
    ensures mmio.trace == old(mmio.trace) + ProgramWrites(start)
  {
    ghost var t0 := mmio.trace;
    mmio.Out16(CmdqBaseAddrL, BaseLow(start));
    mmio.Out16(CmdqBaseAddrH, BaseHigh(start));
    mmio.Out16(CmdqLen, CQ_LEN);
    mmio.Out16(CmdqWriteAddrH, 0);
    mmio.Out16(CmdqWriteAddrL, 0);
    mmio.Out16(CmdqReadAddrH, 0);
    mmio.Out16(CmdqReadAddrL, 0);
    mmio.Out16(CmdqControl, CMDQ_CONTROL);
    assert mmio.trace == t0 + ProgramWrites(start);
  }

  /** GLAMOCMDQResetCP */
  method ResetCP(g: GlamoRec, status: u16)
    requires g.regBase != null && g.regBase.Valid()
    requires g.ring != null && g.ring.Length == g.ringLen
    requires Engine.WaitDone(Engine.All, status)
    modifies g.ring, g.regBase
    ensures g.regBase.Valid()
    ensures g.ring[..] == seq(g.ringLen, _ => 0)
    ensures var c := old(g.regBase.regs[Clock2D]);
      var bit := Engine.CLOCK_2D_CMDQ_RESET;
      g.regBase.regs == ProgramRegs(old(g.regBase.regs)[Clock2D := AndNot(c, bit)], g.ringStart) &&
      g.regBase.trace == old(g.regBase.trace) + [(Clock2D, Or16(c, bit)), (Clock2D, AndNot(c, bit))]
        + ProgramWrites(g.ringStart)
    ensures WritePointer(g.regBase) == 0
  {
    var mmio := g.regBase;
    MemSet(g.ring, 0, g.ringLen);
    Engine.Reset(g, Engine.Cmdq);
    ProgramQueue(mmio, g.ringStart);
    // GLAMOEngineWait(pGlamo, GLAMO_ENGINE_ALL) has ended: status satisfies its exit test
  }

  /**
   * GLAMOCMDQInit.  `window` is the video memory at fbstart + mem_start, and allocOk
   * says whether xcalloc of the staging buffer succeeded.  mem_size is not used.
   */
  method Init(g: GlamoRec, memStart: nat, memSize: nat, window: array<u8>, allocOk: bool) returns (r: nat)
    modifies g
    ensures g.ringStart == memStart && g.ring == window && g.ringLen == RING_LEN
    ensures allocOk ==>
      r == RING_LEN && fresh(g.cmdQueue) && fresh(g.cmdQueue.data) &&
      g.cmdQueue.Valid() && g.cmdQueue.size == RING_LEN && g.cmdQueue.used == 0
    ensures !allocOk ==> r == 0 && g.cmdQueue == old(g.cmdQueue)
    ensures g.regBase == old(g.regBase) && g.colormap == old(g.colormap) && g.submitted == old(g.submitted)
    ensures g.fbstart == old(g.fbstart) && g.exa == old(g.exa)
    ensures g.savedClock2D == old(g.savedClock2D) && g.savedClockIsp == old(g.savedClockIsp)
    ensures g.savedClockGen51 == old(g.savedClockGen51) && g.savedClockGen52 == old(g.savedClockGen52)
    ensures g.savedHostbus2 == old(g.savedHostbus2)
  {
    g.ringStart := memStart;
    g.ring := window;
    g.ringLen := RING_LEN;
    if !allocOk {
      return 0;
    }
    var buf := new MemBuf(g.ringLen);
    buf.size := g.ringLen;
    buf.used := 0;
    g.cmdQueue := buf;
    return g.ringLen;
  }

  /** GLAMOCMDQEnable: the engine's clocks on, then a reset of the queue; the dispatcher is then ready. */
  method Enable(g: GlamoRec, status: u16) returns (r: bool)
    requires g.regBase != null && g.regBase.Valid()
    requires g.ring != null && g.ring.Length == g.ringLen
    requires Engine.WaitDone(Engine.All, status)
    modifies g.ring, g.regBase
    ensures r
    ensures g.regBase.Valid() && WritePointer(g.regBase) == 0
    ensures var enabled := Engine.ApplyGroups(old(g.regBase.regs), Engine.EnableGroups(Engine.Cmdq), 0xffff);
      var c := enabled[Clock2D];
      g.regBase.regs == ProgramRegs(enabled[Clock2D := AndNot(c, Engine.CLOCK_2D_CMDQ_RESET)], g.ringStart)
    ensures g.ring[..] == seq(g.ringLen, _ => 0)
    ensures (g.ringLen == RING_LEN && g.cmdQueue != null && g.cmdQueue.Valid() && g.cmdQueue.size == RING_LEN &&
             g.cmdQueue.data != g.ring && g.cmdQueue.used <= g.cmdQueue.size && g.cmdQueue.used % 2 == 0)
      ==> Ready(g)
  {
    Engine.Enable(g, Engine.Cmdq);
    ResetCP(g, status);
    return true;
  }

  /** GLAMOCMDQDisable */
  method Disable(g: GlamoRec, status: u16)
    requires g.regBase != null ==> g.regBase.Valid() && Engine.WaitDone(Engine.All, status)
    modifies g.regBase
    ensures g.regBase != null ==>
      g.regBase.Valid() &&
      g.regBase.regs == Engine.ApplyGroups(old(g.regBase.regs), Engine.DisableGroups(Engine.Cmdq), 0)
  {
    Engine.Disable(g, Engine.Cmdq);
  }

  /** GLAMOCMDQFini */
  method Fini(g: GlamoRec, status: u16)
    requires g.regBase != null ==> g.regBase.Valid() && Engine.WaitDone(Engine.All, status)
    modifies g, g.regBase
    ensures g.cmdQueue == null && g.regBase == old(g.regBase)
    ensures g.regBase != null ==>
      g.regBase.Valid() &&
      g.regBase.regs == Engine.ApplyGroups(old(g.regBase.regs), Engine.DisableGroups(Engine.Cmdq), 0)
  {
    Disable(g, status);
    if g.cmdQueue != null {
      g.cmdQueue := null;
    }
  }
}
