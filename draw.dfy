/**
 * The EXA acceleration of the ring-buffer driver (glamo-draw.c).  Fills and blits are
 * staged as register/value pairs in cmd_queue and reach the ring through
 * GLAMODispatchCMDQ; uploads and downloads copy rows between system memory and video
 * memory directly.
 *
 * The command macros this file uses are defined in glamo-cmdq.h, which is not part of
 * this model.  They are modelled after their counterparts in glamo-drm-cmdq.h:
 * BEGIN_CMDQ(n) dispatches cmd_queue to the ring when n more entries would not fit and
 * then points __head at the free end of cmd_queue; OUT_REG stores the register and the
 * value, each as a CARD16, as two 16-bit entries; END_CMDQ adds the bytes written to
 * cmd_queue->used.
 */
module Draw {
  import opened Bits
  import opened Glamo
  import opened TwoD
  import Rop
  import Engine
  import Cmdq

  // ---------------------------------------------------------------- the programs of a fill and a blit

  /** The ADDRL register of an operand: offset & 0xffff. */
  function AddrLow(offset: nat): u16
  {
    Cmdq.BaseLow(U32(offset))
  }

  /** The ADDRH register of an operand: (offset >> 16) & 0x7f. */
  function AddrHigh(offset: nat): u16
  {
    Cmdq.BaseHigh(U32(offset))
  }

  lemma U32Low23(x: nat)
    ensures U32(x) % 0x80_0000 == x % 0x80_0000
  {
    var q := x / 0x1_0000_0000;
    assert x == 0x1_0000_0000 * q + U32(x);
    assert U32(x) == x - 0x80_0000 * (0x200 * q);
  }

  /** The two address registers hold the low 23 bits of the offset: (ADDRH << 16) | ADDRL. */
  lemma AddressSplit(offset: nat)
    ensures AddrLow(offset) + 0x1_0000 * AddrHigh(offset) == offset % 0x80_0000
    ensures AddrHigh(offset) < 0x80
  {
    var c := U32(offset);
    Pow2Values();
    Cmdq.BaseSplit(c);
    JoinHalves(Cmdq.BaseLow(c), Cmdq.BaseHigh(c));
    OrComm(Cmdq.BaseLow(c), Shl(Cmdq.BaseHigh(c), 16));
    AndLowMask(Shr(c, 16), 7);
    U32Low23(offset);
  }

  /** The sixteen entries of GLAMOExaPrepareSolid: the destination address, then SolidSetup. */
  function SolidProgram(offset: nat, pitch: u16, height: u16, fg: u16, op: u16): (r: seq<u16>)
    ensures |r| == 16
    ensures Program(r, [REG_2D_DST_ADDRL, REG_2D_DST_ADDRH, REG_2D_DST_PITCH, REG_2D_DST_HEIGHT,
                        REG_2D_PAT_FG, REG_2D_COMMAND2, REG_2D_ID1, REG_2D_ID2])
    ensures r[1] == AddrLow(offset) && r[3] == AddrHigh(offset) && r[4..] == SolidSetup(pitch, height, fg, op)
  {
    [REG_2D_DST_ADDRL, AddrLow(offset), REG_2D_DST_ADDRH, AddrHigh(offset)] + SolidSetup(pitch, height, fg, op)
  }

  lemma SolidProgramPairs(e: seq<u16>, offset: nat, pitch: u16, height: u16, fg: u16, op: u16)
    ensures e + [REG_2D_DST_ADDRL, AddrLow(offset)] + [REG_2D_DST_ADDRH, AddrHigh(offset)] +
      [REG_2D_DST_PITCH, pitch] + [REG_2D_DST_HEIGHT, height] + [REG_2D_PAT_FG, fg] +
      [REG_2D_COMMAND2, op] + [REG_2D_ID1, 0] + [REG_2D_ID2, 0] == e + SolidProgram(offset, pitch, height, fg, op)
  {
  }

  /** The twenty entries of GLAMOExaPrepareCopy: source address and pitch, destination address, pitch and height, op. */
  function CopyProgram(srcOffset: nat, srcPitch: u16, dstOffset: nat, dstPitch: u16, height: u16, op: u16): (r: seq<u16>)
    ensures |r| == 20
    ensures Program(r, [REG_2D_SRC_ADDRL, REG_2D_SRC_ADDRH, REG_2D_SRC_PITCH,
                        REG_2D_DST_ADDRL, REG_2D_DST_ADDRH, REG_2D_DST_PITCH, REG_2D_DST_HEIGHT,
                        REG_2D_COMMAND2, REG_2D_ID1, REG_2D_ID2])
    ensures r[1] == AddrLow(srcOffset) && r[3] == AddrHigh(srcOffset) && r[5] == srcPitch
    ensures r[7] == AddrLow(dstOffset) && r[9] == AddrHigh(dstOffset) && r[11] == dstPitch && r[13] == height
    ensures r[15] == op && r[17] == 0 && r[19] == 0
  {
    var s := CopySource(srcOffset, srcPitch);
    var d := CopyDest(dstOffset, dstPitch, height);
    ProgramAppend(s, [REG_2D_SRC_ADDRL, REG_2D_SRC_ADDRH, REG_2D_SRC_PITCH],
                  d, [REG_2D_DST_ADDRL, REG_2D_DST_ADDRH, REG_2D_DST_PITCH, REG_2D_DST_HEIGHT]);
    ProgramAppend(s + d, [REG_2D_SRC_ADDRL, REG_2D_SRC_ADDRH, REG_2D_SRC_PITCH,
                          REG_2D_DST_ADDRL, REG_2D_DST_ADDRH, REG_2D_DST_PITCH, REG_2D_DST_HEIGHT],
                  OpTail(op), [REG_2D_COMMAND2, REG_2D_ID1, REG_2D_ID2]);
    s + d + OpTail(op)
  }

  /** The source part of CopyProgram: address and pitch. */
  function CopySource(offset: nat, pitch: u16): (r: seq<u16>)
    ensures Program(r, [REG_2D_SRC_ADDRL, REG_2D_SRC_ADDRH, REG_2D_SRC_PITCH])
    ensures r[1] == AddrLow(offset) && r[3] == AddrHigh(offset) && r[5] == pitch
  {
    [REG_2D_SRC_ADDRL, AddrLow(offset), REG_2D_SRC_ADDRH, AddrHigh(offset), REG_2D_SRC_PITCH, pitch]
  }

  /** The destination part of CopyProgram: address, pitch and height. */
  function CopyDest(offset: nat, pitch: u16, height: u16): (r: seq<u16>)
    ensures Program(r, [REG_2D_DST_ADDRL, REG_2D_DST_ADDRH, REG_2D_DST_PITCH, REG_2D_DST_HEIGHT])
    ensures r[1] == AddrLow(offset) && r[3] == AddrHigh(offset) && r[5] == pitch && r[7] == height
  {
    [REG_2D_DST_ADDRL, AddrLow(offset), REG_2D_DST_ADDRH, AddrHigh(offset), REG_2D_DST_PITCH, pitch,
     REG_2D_DST_HEIGHT, height]
  }

  lemma CopyProgramPairs(e: seq<u16>, srcOffset: nat, srcPitch: u16, dstOffset: nat, dstPitch: u16, height: u16, op: u16)
    ensures e + [REG_2D_SRC_ADDRL, AddrLow(srcOffset)] + [REG_2D_SRC_ADDRH, AddrHigh(srcOffset)] +
      [REG_2D_SRC_PITCH, srcPitch] + [REG_2D_DST_ADDRL, AddrLow(dstOffset)] + [REG_2D_DST_ADDRH, AddrHigh(dstOffset)] +
      [REG_2D_DST_PITCH, dstPitch] + [REG_2D_DST_HEIGHT, height] + [REG_2D_COMMAND2, op] + [REG_2D_ID1, 0] +
      [REG_2D_ID2, 0] == e + CopyProgram(srcOffset, srcPitch, dstOffset, dstPitch, height, op)
  {
  }

  // ---------------------------------------------------------------- the command macros of glamo-cmdq.h

  /**
   * The ring, registers and dispatched bytes after BEGIN_CMDQ, from (ring0, regs0,
   * trace0, sub0) with p staged: dispatched if flush, untouched otherwise.
   */
  ghost predicate AfterBegin(g: GlamoRec, flush: bool, ring0: seq<u8>, regs0: map<Reg, u16>,
                             trace0: seq<(Reg, u16)>, sub0: seq<u8>, p: seq<u8>)
    reads g, g.ring, g.regBase
    requires g.ring != null && g.regBase != null && forall r: Reg :: r in regs0
  {
    if flush then
      Cmdq.DispatchEffect(ring0, regs0, trace0, p, g.ring[..], g.regBase.regs, g.regBase.trace) && g.submitted == sub0 + p
    else
      g.ring[..] == ring0 && g.regBase.regs == regs0 && g.regBase.trace == trace0 && g.submitted == sub0
  }

  /** cmd_queue after a block e was added to the staged bytes p, dispatched first if flush. */
  ghost predicate Staged(buf: MemBuf, flush: bool, p: seq<u8>, e: seq<u16>)
    reads buf, buf.data
  {
    buf.used == (if flush then 0 else |p|) + 2 * |e| && buf.used <= buf.data.Length &&
    buf.data[..buf.used] == (if flush then [] else p) + Encode(e)
  }

  /** Adding whole 16-bit words keeps a byte count even. */
  lemma EvenStep(used: int, count: int)
    requires used % 2 == 0
    ensures (used + count * 2) % 2 == 0
  {
  }

  /** RING_LOCALS: the start of the block in cmd_queue and the entries written to it. */
  class RingLocals {
    const g: GlamoRec
    const buf: MemBuf
    /** __head, as a byte offset into cmd_queue->data */
    var head: nat
    var count: nat
    /** The staged bytes before the block and the entries of the block. */
    ghost var prior: seq<u8>
    ghost var block: seq<u16>

    ghost predicate Tracks()
      reads this, buf, buf.data
    {
      |prior| == head && count == |block| && head + 2 * count <= buf.data.Length &&
      buf.data[..head + 2 * count] == prior + Encode(block)
    }

    constructor (g: GlamoRec, buf: MemBuf)
      ensures this.g == g && this.buf == buf && head == 0 && count == 0 && prior == [] && block == []
    {
      this.g := g;
      this.buf := buf;
      head, count := 0, 0;
      prior, block := [], [];
    }

    /** BEGIN_CMDQ(n): dispatch when n more entries would not fit, then start the block at cmd_queue->used. */
    method Begin(n: nat, poll: Cmdq.Poll)
      requires Cmdq.Ready(g) && g.cmdQueue == buf && 2 * n <= Cmdq.RING_LEN
      requires buf.used + 2 * n > buf.size ==> Cmdq.CanDispatch(g, poll)
      modifies this`head, this`count, this`prior, this`block, g.ring, g.regBase, buf, g`submitted
      ensures Cmdq.Ready(g) && buf.data == old(buf.data) && buf.data[..] == old(buf.data[..])
      ensures var flush := old(buf.used) + 2 * n > buf.size;
        buf.used == (if flush then 0 else old(buf.used)) &&
        prior == (if flush then [] else old(buf.data[..buf.used])) &&
        AfterBegin(g, flush, old(g.ring[..]), old(g.regBase.regs), old(g.regBase.trace), old(g.submitted),
                   old(buf.data[..buf.used]))
      ensures Tracks() && head == buf.used && block == [] && buf.used + 2 * n <= buf.size
    {
      if buf.used + 2 * n > buf.size {
        Cmdq.Dispatch(g, poll);
      }
      head := buf.used;
      count := 0;
      prior := buf.data[..buf.used];
      block := [];
    }

    /** __head[__count++] = v */
    method Out(v: u16)
      requires Tracks() && head + 2 * count + 2 <= buf.data.Length
      modifies this`count, this`block, buf.data
      ensures Tracks() && count == old(count) + 1 && block == old(block) + [v]
      ensures buf.data[head + 2 * count..] == old(buf.data[head + 2 * count + 2..])
    {
      ghost var before := buf.data[..head + 2 * count];
      Store16(buf.data, head + 2 * count, v);
      count := count + 1;
      block := block + [v];
      assert buf.data[..head + 2 * count] == before + LE16(v);
      EncodeAppend(old(block), [v]);
    }

    /** OUT_REG(reg, val) */
    method OutReg(r: u16, v: u16)
      requires Tracks() && head + 2 * count + 4 <= buf.data.Length
      modifies this`count, this`block, buf.data
      ensures Tracks() && count == old(count) + 2 && block == old(block) + [r, v]
      ensures buf.data[head + 2 * count..] == old(buf.data[head + 2 * count + 4..])
    {
      Out(r);
      Out(v);
    }

    /** END_CMDQ: the block becomes part of the staged bytes. */
    method End()
      requires Tracks() && head == buf.used
      requires Cmdq.Ready(g) && g.cmdQueue == buf && buf.used + 2 * count <= buf.size
      modifies buf`used
      ensures Cmdq.Ready(g)
      ensures buf.used == old(buf.used) + 2 * count
      ensures buf.data[..buf.used] == prior + Encode(block)
    {
      EvenStep(buf.used, count);
      buf.used := buf.used + count * 2;
    }

    /** The OUT_REGs and END_CMDQ of GLAMOExaPrepareSolid. */
    method PrepareSolidBlock(offset: nat, pitch: u16, height: u16, fg: u16, op: u16)
      requires Tracks() && block == [] && head == buf.used && head + 32 <= buf.size
      requires Cmdq.Ready(g) && g.cmdQueue == buf
      modifies this`count, this`block, buf.data, buf`used
      ensures Cmdq.Ready(g)
      ensures buf.used == old(buf.used) + 32
      ensures buf.data[..buf.used] == prior + Encode(SolidProgram(offset, pitch, height, fg, op))
    {
      OutReg(REG_2D_DST_ADDRL, AddrLow(offset));
      OutReg(REG_2D_DST_ADDRH, AddrHigh(offset));
      OutReg(REG_2D_DST_PITCH, pitch);
      OutReg(REG_2D_DST_HEIGHT, height);
      OutReg(REG_2D_PAT_FG, fg);
      OutReg(REG_2D_COMMAND2, op);
      OutReg(REG_2D_ID1, 0);
      OutReg(REG_2D_ID2, 0);
      SolidProgramPairs([], offset, pitch, height, fg, op);
      assert block == SolidProgram(offset, pitch, height, fg, op);
      End();
    }

    /** The OUT_REGs and END_CMDQ of GLAMOExaSolid. */
    method SolidBlock(x1: int, y1: int, x2: int, y2: int)
      requires Tracks() && block == [] && head == buf.used && head + 20 <= buf.size
      requires Cmdq.Ready(g) && g.cmdQueue == buf
      modifies this`count, this`block, buf.data, buf`used
      ensures Cmdq.Ready(g)
      ensures buf.used == old(buf.used) + 20
      ensures buf.data[..buf.used] == prior + Encode(SolidRect(x1, y1, x2, y2))
    {
      OutReg(REG_2D_DST_X, U16(x1));
      OutReg(REG_2D_DST_Y, U16(y1));
      OutReg(REG_2D_RECT_WIDTH, U16(x2 - x1));
      OutReg(REG_2D_RECT_HEIGHT, U16(y2 - y1));
      OutReg(REG_2D_COMMAND3, 0);
      SolidRectPairs([], x1, y1, x2, y2);
      assert block == SolidRect(x1, y1, x2, y2);
      End();
    }

    /** The OUT_REGs and END_CMDQ of GLAMOExaPrepareCopy. */
    method PrepareCopyBlock(srcOffset: nat, srcPitch: u16, dstOffset: nat, dstPitch: u16, height: u16, op: u16)
      requires Tracks() && block == [] && head == buf.used && head + 40 <= buf.size
      requires Cmdq.Ready(g) && g.cmdQueue == buf
      modifies this`count, this`block, buf.data, buf`used
      ensures Cmdq.Ready(g)
      ensures buf.used == old(buf.used) + 40
      ensures buf.data[..buf.used] == prior + Encode(CopyProgram(srcOffset, srcPitch, dstOffset, dstPitch, height, op))
    {
      OutReg(REG_2D_SRC_ADDRL, AddrLow(srcOffset));
      OutReg(REG_2D_SRC_ADDRH, AddrHigh(srcOffset));
      OutReg(REG_2D_SRC_PITCH, srcPitch);
      OutReg(REG_2D_DST_ADDRL, AddrLow(dstOffset));
      OutReg(REG_2D_DST_ADDRH, AddrHigh(dstOffset));
      OutReg(REG_2D_DST_PITCH, dstPitch);
      OutReg(REG_2D_DST_HEIGHT, height);
      OutReg(REG_2D_COMMAND2, op);
      OutReg(REG_2D_ID1, 0);
      OutReg(REG_2D_ID2, 0);
      CopyProgramPairs([], srcOffset, srcPitch, dstOffset, dstPitch, height, op);
      assert block == CopyProgram(srcOffset, srcPitch, dstOffset, dstPitch, height, op);
      End();
    }

    /** The OUT_REGs and END_CMDQ of GLAMOExaCopy. */
    method CopyBlock(srcX: int, srcY: int, dstX: int, dstY: int, width: int, height: int)
      requires Tracks() && block == [] && head == buf.used && head + 28 <= buf.size
      requires Cmdq.Ready(g) && g.cmdQueue == buf
      modifies this`count, this`block, buf.data, buf`used
      ensures Cmdq.Ready(g)
      ensures buf.used == old(buf.used) + 28
      ensures buf.data[..buf.used] == prior + Encode(CopyRect(srcX, srcY, dstX, dstY, width, height))
    {
      OutReg(REG_2D_SRC_X, U16(srcX));
      OutReg(REG_2D_SRC_Y, U16(srcY));
      OutReg(REG_2D_DST_X, U16(dstX));
      OutReg(REG_2D_DST_Y, U16(dstY));
      OutReg(REG_2D_RECT_WIDTH, U16(width));
      OutReg(REG_2D_RECT_HEIGHT, U16(height));
      OutReg(REG_2D_COMMAND3, 0);
      CopyRectPairs([], srcX, srcY, dstX, dstY, width, height);
      assert block == CopyRect(srcX, srcY, dstX, dstY, width, height);
      End();
    }
  }

  // ---------------------------------------------------------------- the EXA entry points

  /** The four lines of GLAMOExaPrepareSolid's block: the staging and the eight OUT_REGs. */
  method EmitSolid(g: GlamoRec, poll: Cmdq.Poll, offset: nat, pitch: u16, height: u16, fg: u16, op: u16)
    requires Cmdq.Ready(g)
    requires g.cmdQueue.used + 32 > g.cmdQueue.size ==> Cmdq.CanDispatch(g, poll)
    modifies g.ring, g.regBase, g.cmdQueue, g.cmdQueue.data, g`submitted
    ensures Cmdq.Ready(g) && g.cmdQueue.data == old(g.cmdQueue.data)
    ensures var flush := old(g.cmdQueue.used) + 32 > g.cmdQueue.size;
      var p := old(g.cmdQueue.data[..g.cmdQueue.used]);
      AfterBegin(g, flush, old(g.ring[..]), old(g.regBase.regs), old(g.regBase.trace), old(g.submitted), p) &&
      Staged(g.cmdQueue, flush, p, SolidProgram(offset, pitch, height, fg, op))
  {
    var loc := new RingLocals(g, g.cmdQueue);
    loc.Begin(16, poll);
    loc.PrepareSolidBlock(offset, pitch, height, fg, op);
  }

  /**
   * GLAMOExaPrepareSolid: fall back unless the pixmap has 16 bits per pixel and the
   * planemask covers all 16 bits; otherwise stage the fill's set-up.
   */
  method PrepareSolid(g: GlamoRec, pix: Pixmap, alu: nat, pm: u32, fg: u32, poll: Cmdq.Poll) returns (ok: bool)
    requires Cmdq.Ready(g) && alu < 16
    requires g.cmdQueue.used + 32 > g.cmdQueue.size ==> Cmdq.CanDispatch(g, poll)
    modifies g.ring, g.regBase, g.cmdQueue, g.cmdQueue.data, g`submitted
    ensures Cmdq.Ready(g) && g.cmdQueue.data == old(g.cmdQueue.data)
    ensures ok == Accelerated(pix.bitsPerPixel, pm)
    ensures !ok ==>
      g.cmdQueue.used == old(g.cmdQueue.used) && g.cmdQueue.data[..] == old(g.cmdQueue.data[..]) &&
      AfterBegin(g, false, old(g.ring[..]), old(g.regBase.regs), old(g.regBase.trace), old(g.submitted), [])
    ensures ok ==>
      var flush := old(g.cmdQueue.used) + 32 > g.cmdQueue.size;
      var p := old(g.cmdQueue.data[..g.cmdQueue.used]);
      AfterBegin(g, flush, old(g.ring[..]), old(g.regBase.regs), old(g.regBase.trace), old(g.submitted), p) &&
      Staged(g.cmdQueue, flush, p, SolidProgram(pix.offset, Pitch11(pix.devKind), pix.height, U16(fg),
                                                Rop.OpWord(Rop.GLAMO_SOLID_ROP[alu])))
  {
    if pix.bitsPerPixel != 16 {
      return false;
    }
    if And(pm, 0xffff) != 0xffff {
      return false;
    }
    var op := Rop.OpWord(Rop.GLAMO_SOLID_ROP[alu]);
    EmitSolid(g, poll, pix.offset, Pitch11(pix.devKind), pix.height, U16(fg), op);
    ok := true;
  }

  /** GLAMOExaSolid: the ten entries of the rectangle. */
  method Solid(g: GlamoRec, x1: int, y1: int, x2: int, y2: int, poll: Cmdq.Poll)
    requires Cmdq.Ready(g)
    requires g.cmdQueue.used + 20 > g.cmdQueue.size ==> Cmdq.CanDispatch(g, poll)
    modifies g.ring, g.regBase, g.cmdQueue, g.cmdQueue.data, g`submitted
    ensures Cmdq.Ready(g) && g.cmdQueue.data == old(g.cmdQueue.data)
    ensures var flush := old(g.cmdQueue.used) + 20 > g.cmdQueue.size;
      var p := old(g.cmdQueue.data[..g.cmdQueue.used]);
      AfterBegin(g, flush, old(g.ring[..]), old(g.regBase.regs), old(g.regBase.trace), old(g.submitted), p) &&
      Staged(g.cmdQueue, flush, p, SolidRect(x1, y1, x2, y2))
  {
    var loc := new RingLocals(g, g.cmdQueue);
    loc.Begin(10, poll);
    loc.SolidBlock(x1, y1, x2, y2);
  }

  /** GLAMOExaPrepareCopy's block: the staging and the ten OUT_REGs. */
  method EmitCopy(g: GlamoRec, poll: Cmdq.Poll, srcOffset: nat, srcPitch: u16, dstOffset: nat, dstPitch: u16,
                  height: u16, op: u16)
    requires Cmdq.Ready(g)
    requires g.cmdQueue.used + 40 > g.cmdQueue.size ==> Cmdq.CanDispatch(g, poll)
    modifies g.ring, g.regBase, g.cmdQueue, g.cmdQueue.data, g`submitted
    ensures Cmdq.Ready(g) && g.cmdQueue.data == old(g.cmdQueue.data)
    ensures var flush := old(g.cmdQueue.used) + 40 > g.cmdQueue.size;
      var p := old(g.cmdQueue.data[..g.cmdQueue.used]);
      AfterBegin(g, flush, old(g.ring[..]), old(g.regBase.regs), old(g.regBase.trace), old(g.submitted), p) &&
      Staged(g.cmdQueue, flush, p, CopyProgram(srcOffset, srcPitch, dstOffset, dstPitch, height, op))
  {
    var loc := new RingLocals(g, g.cmdQueue);
    loc.Begin(20, poll);
    loc.PrepareCopyBlock(srcOffset, srcPitch, dstOffset, dstPitch, height, op);
  }

  /** GLAMOExaPrepareCopy: the same fallbacks as a fill, for both pixmaps, then the blit's set-up. */
  method PrepareCopy(g: GlamoRec, src: Pixmap, dst: Pixmap, dx: int, dy: int, alu: nat, pm: u32, poll: Cmdq.Poll)
    returns (ok: bool)
    requires Cmdq.Ready(g) && alu < 16
    requires g.cmdQueue.used + 40 > g.cmdQueue.size ==> Cmdq.CanDispatch(g, poll)
    modifies g.ring, g.regBase, g.cmdQueue, g.cmdQueue.data, g`submitted
    ensures Cmdq.Ready(g) && g.cmdQueue.data == old(g.cmdQueue.data)
    ensures ok == (Accelerated(src.bitsPerPixel, pm) && dst.bitsPerPixel == 16)
    ensures !ok ==>
      g.cmdQueue.used == old(g.cmdQueue.used) && g.cmdQueue.data[..] == old(g.cmdQueue.data[..]) &&
      AfterBegin(g, false, old(g.ring[..]), old(g.regBase.regs), old(g.regBase.trace), old(g.submitted), [])
    ensures ok ==>
      var flush := old(g.cmdQueue.used) + 40 > g.cmdQueue.size;
      var p := old(g.cmdQueue.data[..g.cmdQueue.used]);
      AfterBegin(g, flush, old(g.ring[..]), old(g.regBase.regs), old(g.regBase.trace), old(g.submitted), p) &&
      Staged(g.cmdQueue, flush, p,
             CopyProgram(src.offset, Pitch11(src.devKind), dst.offset, Pitch11(dst.devKind), dst.height,
                         Rop.OpWord(Rop.GLAMO_BLT_ROP[alu])))
  {
    if src.bitsPerPixel != 16 || dst.bitsPerPixel != 16 {
      return false;
    }
    if And(pm, 0xffff) != 0xffff {
      return false;
    }
    var op := Rop.OpWord(Rop.GLAMO_BLT_ROP[alu]);
    EmitCopy(g, poll, src.offset, Pitch11(src.devKind), dst.offset, Pitch11(dst.devKind), dst.height, op);
    ok := true;
  }

  /** GLAMOExaCopy: the fourteen entries of the rectangles. */
  method Copy(g: GlamoRec, srcX: int, srcY: int, dstX: int, dstY: int, width: int, height: int, poll: Cmdq.Poll)
    requires Cmdq.Ready(g)
    requires g.cmdQueue.used + 28 > g.cmdQueue.size ==> Cmdq.CanDispatch(g, poll)
    modifies g.ring, g.regBase, g.cmdQueue, g.cmdQueue.data, g`submitted
    ensures Cmdq.Ready(g) && g.cmdQueue.data == old(g.cmdQueue.data)
    ensures var flush := old(g.cmdQueue.used) + 28 > g.cmdQueue.size;
      var p := old(g.cmdQueue.data[..g.cmdQueue.used]);
      AfterBegin(g, flush, old(g.ring[..]), old(g.regBase.regs), old(g.regBase.trace), old(g.submitted), p) &&
      Staged(g.cmdQueue, flush, p, CopyRect(srcX, srcY, dstX, dstY, width, height))
  {
    var loc := new RingLocals(g, g.cmdQueue);
    loc.Begin(14, poll);
    loc.CopyBlock(srcX, srcY, dstX, dstY, width, height);
  }

  /**
   * GLAMOExaDoneSolid and GLAMOExaDoneCopy: dispatch what is staged.  exaMarkSync is
   * not part of this model.
   */
  method Done(g: GlamoRec, poll: Cmdq.Poll)
    requires Cmdq.Ready(g)
    requires g.cmdQueue.used > 0 ==> Cmdq.CanDispatch(g, poll)
    modifies g.ring, g.regBase, g.cmdQueue, g`submitted
    ensures Cmdq.Ready(g) && g.cmdQueue.used == 0
    ensures AfterBegin(g, old(g.cmdQueue.used) > 0, old(g.ring[..]), old(g.regBase.regs), old(g.regBase.trace),
                       old(g.submitted), old(g.cmdQueue.data[..g.cmdQueue.used]))
  {
    Cmdq.Dispatch(g, poll);
  }

  /** GLAMOExaWaitMarker: dispatch, then wait (status is what the wait's last poll reads) until the engines are idle. */
  method WaitMarker(g: GlamoRec, poll: Cmdq.Poll, status: u16)
    requires Cmdq.Ready(g)
    requires g.cmdQueue.used > 0 ==> Cmdq.CanDispatch(g, poll)
    requires Engine.WaitDone(Engine.All, status)
    modifies g.ring, g.regBase, g.cmdQueue, g`submitted
    ensures Cmdq.Ready(g) && g.cmdQueue.used == 0
    ensures AfterBegin(g, old(g.cmdQueue.used) > 0, old(g.ring[..]), old(g.regBase.regs), old(g.regBase.trace),
                       old(g.submitted), old(g.cmdQueue.data[..g.cmdQueue.used]))
  {
    Cmdq.Dispatch(g, poll);
    // GLAMOEngineWait(pGlamo, GLAMO_ENGINE_ALL) has ended: status satisfies its exit test
  }

  /** GLAMOExaCheckComposite: composites are never accelerated. */
  function CheckComposite(op: int): (r: bool)
    ensures !r
  {
    false
  }

  /** GLAMOExaPrepareComposite */
  function PrepareComposite(op: int): (r: bool)
    ensures !r
  {
    false
  }

  // ---------------------------------------------------------------- uploads and downloads

  /** h rows of n bytes, pitch apart from at, lie inside a buffer of len bytes. */
  predicate RowsFit(len: nat, at: nat, pitch: nat, n: nat, h: nat)
    decreases h
  {
    h == 0 || (at + n <= len && RowsFit(len, at + pitch, pitch, n, h - 1))
  }

  /** Byte k lies in one of the h rows of n bytes, pitch apart from at. */
  predicate InRows(k: nat, at: nat, pitch: nat, n: nat, h: nat)
    decreases h
  {
    h > 0 && ((at <= k < at + n) || InRows(k, at + pitch, pitch, n, h - 1))
  }

  /**
   * m after h memcpys of n bytes, the first row first: row i goes from from + i*sPitch
   * in s to at + i*pitch in m.
   */
  function CopyRows(m: seq<u8>, at: nat, pitch: nat, s: seq<u8>, from: nat, sPitch: nat, n: nat, h: nat): (r: seq<u8>)
    requires RowsFit(|m|, at, pitch, n, h) && RowsFit(|s|, from, sPitch, n, h)
    ensures |r| == |m|
    decreases h
  {
    if h == 0 then m
    else CopyRows(m[..at] + s[from..from + n] + m[at + n..], at + pitch, pitch, s, from + sPitch, sPitch, n, h - 1)
  }

  /** A byte outside every row keeps its value. */
  lemma {:induction false} CopyRowsOutside(m: seq<u8>, at: nat, pitch: nat, s: seq<u8>, from: nat, sPitch: nat,
                                           n: nat, h: nat, k: nat)
    requires RowsFit(|m|, at, pitch, n, h) && RowsFit(|s|, from, sPitch, n, h)
    requires k < |m| && !InRows(k, at, pitch, n, h)
    ensures CopyRows(m, at, pitch, s, from, sPitch, n, h)[k] == m[k]
    decreases h
  {
    if h > 0 {
      var m1 := m[..at] + s[from..from + n] + m[at + n..];
      assert m1[k] == m[k];
      CopyRowsOutside(m1, at + pitch, pitch, s, from + sPitch, sPitch, n, h - 1, k);
    }
  }

  /** Rows at or after at leave the bytes before at alone. */
  lemma {:induction false} CopyRowsBefore(m: seq<u8>, at: nat, pitch: nat, s: seq<u8>, from: nat, sPitch: nat,
                                          n: nat, h: nat, k: nat)
    requires RowsFit(|m|, at, pitch, n, h) && RowsFit(|s|, from, sPitch, n, h)
    requires k < at && k < |m|
    ensures CopyRows(m, at, pitch, s, from, sPitch, n, h)[k] == m[k]
    decreases h
  {
    if h > 0 {
      var m1 := m[..at] + s[from..from + n] + m[at + n..];
      assert m1[k] == m[k];
      CopyRowsBefore(m1, at + pitch, pitch, s, from + sPitch, sPitch, n, h - 1, k);
    }
  }

  /** When rows do not overlap, byte j of row i is byte j of source row i. */
  lemma {:induction false} CopyRowsAt(m: seq<u8>, at: nat, pitch: nat, s: seq<u8>, from: nat, sPitch: nat,
                                      n: nat, h: nat, i: nat, j: nat)
    requires RowsFit(|m|, at, pitch, n, h) && RowsFit(|s|, from, sPitch, n, h)
    requires n <= pitch && i < h && j < n
    ensures at + i * pitch + j < |m| && from + i * sPitch + j < |s|
    ensures CopyRows(m, at, pitch, s, from, sPitch, n, h)[at + i * pitch + j] == s[from + i * sPitch + j]
    decreases h
  {
    var m1 := m[..at] + s[from..from + n] + m[at + n..];
    assert CopyRows(m, at, pitch, s, from, sPitch, n, h) == CopyRows(m1, at + pitch, pitch, s, from + sPitch, sPitch, n, h - 1);
    if i == 0 {
      assert m1[at + j] == s[from + j];
      CopyRowsBefore(m1, at + pitch, pitch, s, from + sPitch, sPitch, n, h - 1, at + j);
    } else {
      RowAfter(at, pitch, i, j);
      RowAfter(from, sPitch, i, j);
      CopyRowsAt(m1, at + pitch, pitch, s, from + sPitch, sPitch, n, h - 1, i - 1, j);
    }
  }

  /** Byte j of row i counted from at is byte j of row i - 1 counted from the next row. */
  lemma RowAfter(at: nat, pitch: nat, i: nat, j: nat)
    requires i > 0
    ensures at + i * pitch + j == (at + pitch) + (i - 1) * pitch + j
  {
  }

  /** The loop both transfers share: memcpy a row, then advance both pointers by their pitches. */
  method RowCopy(dst: array<u8>, at: nat, pitch: nat, src: array<u8>, from: nat, sPitch: nat, n: nat, h: nat)
    requires dst != src
    requires RowsFit(dst.Length, at, pitch, n, h) && RowsFit(src.Length, from, sPitch, n, h)
    modifies dst
    ensures dst[..] == CopyRows(old(dst[..]), at, pitch, src[..], from, sPitch, n, h)
  {
    var d: nat, s: nat := at, from;
    var i := 0;
    while i < h
      invariant i <= h
      invariant RowsFit(dst.Length, d, pitch, n, h - i) && RowsFit(src.Length, s, sPitch, n, h - i)
      invariant CopyRows(old(dst[..]), at, pitch, src[..], from, sPitch, n, h) ==
                CopyRows(dst[..], d, pitch, src[..], s, sPitch, n, h - i)
    {
      MemCpy(dst, d, src, s, n);
      d := d + pitch;
      s := s + sPitch;
      i := i + 1;
    }
  }

  /** The byte offset of pixel (x, y) of a pixmap from memoryBase. */
  function PixelOffset(pix: Pixmap, x: nat, y: nat): nat
    reads pix
    requires pix.devKind >= 0
  {
    pix.offset + x * (pix.bitsPerPixel / 8) + y * pix.devKind
  }

  /**
   * GLAMOExaUploadToScreen: row i of w pixels goes from src + i*src_pitch to pixel
   * (x, y+i) of the pixmap in video memory fb, which starts at memoryBase.
   */
  method UploadToScreen(fb: array<u8>, pix: Pixmap, x: nat, y: nat, w: nat, h: nat, src: array<u8>, srcAt: nat,
                        srcPitch: nat) returns (ok: bool)
    requires fb != src && pix.devKind >= 0
    requires RowsFit(fb.Length, PixelOffset(pix, x, y), pix.devKind, w * (pix.bitsPerPixel / 8), h)
    requires RowsFit(src.Length, srcAt, srcPitch, w * (pix.bitsPerPixel / 8), h)
    modifies fb
    ensures ok
    ensures fb[..] == CopyRows(old(fb[..]), PixelOffset(pix, x, y), pix.devKind, src[..], srcAt, srcPitch,
                               w * (pix.bitsPerPixel / 8), h)
  {
    var bpp := pix.bitsPerPixel / 8;
    var dstPitch: nat := pix.devKind;
    var dstAt := pix.offset + x * bpp + y * dstPitch;
    RowCopy(fb, dstAt, dstPitch, src, srcAt, srcPitch, w * bpp, h);
    return true;
  }

  /** GLAMOExaDownloadFromScreen: the mirror image, from the pixmap in fb to dst + i*dst_pitch. */
  method DownloadFromScreen(fb: array<u8>, pix: Pixmap, x: nat, y: nat, w: nat, h: nat, dst: array<u8>, dstAt: nat,
                            dstPitch: nat) returns (ok: bool)
    requires fb != dst && pix.devKind >= 0
    requires RowsFit(fb.Length, PixelOffset(pix, x, y), pix.devKind, w * (pix.bitsPerPixel / 8), h)
    requires RowsFit(dst.Length, dstAt, dstPitch, w * (pix.bitsPerPixel / 8), h)
    modifies dst
    ensures ok
    ensures dst[..] == CopyRows(old(dst[..]), dstAt, dstPitch, fb[..], PixelOffset(pix, x, y), pix.devKind,
                                w * (pix.bitsPerPixel / 8), h)
  {
    var bpp := pix.bitsPerPixel / 8;
    var srcPitch: nat := pix.devKind;
    var srcAt := pix.offset + x * bpp + y * srcPitch;
    RowCopy(dst, dstAt, dstPitch, fb, srcAt, srcPitch, w * bpp, h);
    return true;
  }

  // ---------------------------------------------------------------- set-up and tear-down

  /**
   * GLAMODrawExaInit.  allocOk says whether exaDriverAlloc succeeded and initOk what
   * exaDriverInit returned; the entry points and the block handlers are not modelled.
   */
  method ExaInit(g: GlamoRec, memStart: int, memSize: int, allocOk: bool, initOk: bool) returns (success: bool)
    modifies g`exa
    ensures success == (allocOk && initOk)
    ensures !success ==> g.exa == null
    ensures success ==>
      g.exa != null && fresh(g.exa) &&
      g.exa.memoryBase == g.fbstart && g.exa.memorySize == memSize + memStart && g.exa.offScreenBase == memStart &&
      g.exa.pixmapOffsetAlign == 2 && g.exa.pixmapPitchAlign == 2 && g.exa.maxX == 640 && g.exa.maxY == 640 &&
      g.exa.offscreenPixmaps
  {
    if !allocOk {
      g.exa := null;
      return false;
    }
    var exa := new ExaDriver();
    g.exa := exa;
    exa.memoryBase := g.fbstart;
    exa.memorySize := memSize + memStart;
    exa.offScreenBase := memStart;
    exa.pixmapOffsetAlign := 2;
    exa.pixmapPitchAlign := 2;
    exa.maxX := 640;
    exa.maxY := 640;
    exa.offscreenPixmaps := true;
    success := initOk;
    if !success {
      g.exa := null;
    }
  }

  /** GLAMODrawFini: the queue's clocks off, the staging buffer and the EXA record released. */
  method DrawFini(g: GlamoRec, status: u16)
    requires g.regBase != null ==> g.regBase.Valid() && Engine.WaitDone(Engine.All, status)
    modifies g, g.regBase
    ensures g.cmdQueue == null && g.exa == null && g.regBase == old(g.regBase)
    ensures g.regBase != null ==>
      g.regBase.Valid() &&
      g.regBase.regs == Engine.ApplyGroups(old(g.regBase.regs), Engine.DisableGroups(Engine.Cmdq), 0)
  {
    Cmdq.Fini(g, status);
    if g.exa != null {
      g.exa := null;
    }
  }

  /**
   * GLAMODrawInit: the command queue takes the first ring_len bytes of the window; EXA
   * gets the rest.  Returns mem_size, or 0 when either step fails.
   */
  method DrawInit(g: GlamoRec, memStart: nat, memSize: nat, window: array<u8>, allocOk: bool,
                  exaAllocOk: bool, exaInitOk: bool, status: u16) returns (r: int)
    requires g.regBase != null ==> g.regBase.Valid() && Engine.WaitDone(Engine.All, status)
    modifies g, g.regBase
    ensures r == (if allocOk && exaAllocOk && exaInitOk then memSize else 0)
    ensures !allocOk ==> g.cmdQueue == null && g.exa == null
    ensures allocOk ==>
      g.ringStart == memStart && g.ring == window && g.ringLen == Cmdq.RING_LEN &&
      g.cmdQueue != null && fresh(g.cmdQueue) && g.cmdQueue.Valid() && g.cmdQueue.size == Cmdq.RING_LEN &&
      g.cmdQueue.used == 0
    ensures allocOk && exaAllocOk && exaInitOk ==>
      g.exa != null && g.exa.memoryBase == g.fbstart && g.exa.memorySize == memSize + memStart &&
      g.exa.offScreenBase == memStart + Cmdq.RING_LEN
    ensures allocOk && !(exaAllocOk && exaInitOk) ==> g.exa == null
  {
    var memUsed := Cmdq.Init(g, memStart, memSize, window, allocOk);
    if memUsed == 0 {
      DrawFini(g, status);
      return 0;
    }
    var ok := ExaInit(g, memStart + memUsed, memSize - memUsed, exaAllocOk, exaInitOk);
    if !ok {
      return 0;
    }
    return memSize;
  }

  /**
   * GLAMODrawEnable: the 2D engine on and reset, then the command queue enabled.
   * GLAMOCMDQEnable always succeeds, so the GLAMODrawDisable fallback never runs.
   */
  method DrawEnable(g: GlamoRec, status: u16) returns (r: bool)
    requires g.regBase != null && g.regBase.Valid()
    requires g.ring != null && g.ring.Length == g.ringLen
    requires Engine.WaitDone(Engine.All, status)
    modifies g.ring, g.regBase
    ensures r && g.regBase.Valid() && Cmdq.WritePointer(g.regBase) == 0
    ensures g.ring[..] == seq(g.ringLen, _ => 0)
    ensures var on2d := Engine.ApplyGroups(old(g.regBase.regs), Engine.EnableGroups(Engine.TwoD), 0xffff);
      var reset := on2d[Clock2D := AndNot(on2d[Clock2D], Engine.CLOCK_2D_RESET)];
      var onCmdq := Engine.ApplyGroups(reset, Engine.EnableGroups(Engine.Cmdq), 0xffff);
      g.regBase.regs ==
        Cmdq.ProgramRegs(onCmdq[Clock2D := AndNot(onCmdq[Clock2D], Engine.CLOCK_2D_CMDQ_RESET)], g.ringStart)
  {
    Engine.Enable(g, Engine.TwoD);
    Engine.Reset(g, Engine.TwoD);
    r := Cmdq.Enable(g, status);
    // GLAMOEngineWait(pGlamo, GLAMO_ENGINE_ALL) has ended: status satisfies its exit test
  }

  /** GLAMODrawDisable: the command queue's clocks off, then the 2D engine's. */
  method DrawDisable(g: GlamoRec, status: u16)
    requires g.regBase != null ==> g.regBase.Valid() && Engine.WaitDone(Engine.All, status)
    modifies g.regBase
    ensures g.regBase != null ==>
      g.regBase.Valid() &&
      g.regBase.regs == Engine.ApplyGroups(Engine.ApplyGroups(old(g.regBase.regs), Engine.DisableGroups(Engine.Cmdq), 0),
                                           Engine.DisableGroups(Engine.TwoD), 0)
  {
    Cmdq.Disable(g, status);
    Engine.Disable(g, Engine.TwoD);
  }
}
