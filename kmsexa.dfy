/**
 * The EXA acceleration of the KMS driver (glamo-kms-exa.c).  Its command buffer is
 * a second copy of the kernel-submission staging buffer, with its own flush rule:
 * a forced dispatch happens only when the entry count is exactly cmdq_drm_size, and
 * cmdq_drm_size is the byte size of the allocation (4096), while the count compares
 * against it in 16-bit entries.  The buffers are therefore modelled by the entries
 * added since the last dispatch, without the allocation's bound, and a ghost flag
 * records that an entry was stored beyond the allocation.
 */
module KmsExa {
  import opened Bits
  import opened Glamo
  import opened TwoD
  import Rop
  import Drm

  /** cmdq_drm_size as GlamoKMSExaInit sets it: 4 * 1024, the byte size of the allocation. */
  const KMS_CMDQ_SIZE: nat := 4 * 1024
  /** How many 16-bit entries the malloc(cmdq_drm_size) allocation holds. */
  const DRM_ALLOC_ENTRIES: nat := KMS_CMDQ_SIZE / 2
  /** How many 32-bit entries each malloc(1024) of cmdq_objs and cmdq_obj_pos holds. */
  const OBJ_ALLOC_ENTRIES: nat := 1024 / 4

  /** The entry count after adding n entries from count used: the only flush is at exactly KMS_CMDQ_SIZE. */
  function Step(used: nat, n: nat): nat
  {
    (if used == KMS_CMDQ_SIZE then 0 else used) + n
  }

  /** The entry count after a series of adds of ns[0], ns[1], ... entries. */
  function AfterAdds(used: nat, ns: seq<nat>): nat
    decreases |ns|
  {
    if ns == [] then used else AfterAdds(Step(used, ns[0]), ns[1..])
  }

  function Sum(ns: seq<nat>): nat
  {
    if ns == [] then 0 else ns[0] + Sum(ns[1..])
  }

  /**
   * Once the count has passed cmdq_drm_size no add ever flushes again: every later
   * entry is stored at a higher index until the next explicit dispatch.
   */
  lemma {:induction false} NoFlushPastSize(used: nat, ns: seq<nat>)
    requires used > KMS_CMDQ_SIZE
    ensures AfterAdds(used, ns) == used + Sum(ns)
    decreases |ns|
  {
    if ns != [] {
      NoFlushPastSize(Step(used, ns[0]), ns[1..]);
    }
  }

  /** A relocation added at count cmdq_drm_size - 2 carries the count past the flush point unflushed. */
  lemma RelocationSkipsFlush()
    ensures Step(KMS_CMDQ_SIZE - 2, 4) > KMS_CMDQ_SIZE
    ensures forall ns: seq<nat> :: AfterAdds(Step(KMS_CMDQ_SIZE - 2, 4), ns) == KMS_CMDQ_SIZE + 2 + Sum(ns)
  {
    forall ns: seq<nat> ensures AfterAdds(Step(KMS_CMDQ_SIZE - 2, 4), ns) == KMS_CMDQ_SIZE + 2 + Sum(ns) {
      NoFlushPastSize(KMS_CMDQ_SIZE + 2, ns);
    }
  }

  /** k two-entry adds from an empty buffer, the count Solid and Copy drive. */
  function Pairs(k: nat): (r: seq<nat>)
    ensures |r| == k && forall i :: 0 <= i < k ==> r[i] == 2
  {
    if k == 0 then [] else [2] + Pairs(k - 1)
  }

  /** From count u below the flush point, k pairs that stay at or below it raise the count by 2k unflushed. */
  lemma {:induction false} PairsBelowSize(u: nat, k: nat)
    requires u + 2 * k <= KMS_CMDQ_SIZE
    ensures AfterAdds(u, Pairs(k)) == u + 2 * k
    decreases k
  {
    if k > 0 {
      assert Pairs(k)[1..] == Pairs(k - 1);
      assert Step(u, 2) == u + 2;
      PairsBelowSize(u + 2, k - 1);
    }
  }

  /**
   * The 1025th pair added to an empty buffer is stored past the 2048 entries of the
   * allocation, and no flush has happened before it.
   */
  lemma PairsOverrunAllocation()
    ensures AfterAdds(0, Pairs(DRM_ALLOC_ENTRIES / 2 + 1)) == DRM_ALLOC_ENTRIES + 2
    ensures AfterAdds(0, Pairs(DRM_ALLOC_ENTRIES / 2 + 1)) > DRM_ALLOC_ENTRIES
  {
    PairsBelowSize(0, DRM_ALLOC_ENTRIES / 2 + 1);
  }

  /**
   * The cmdq_* fields of the KMS driver record and the history of what was emitted and
   * submitted.  Each buffer is represented by its live part, the entries below its count.
   */
  class KmsQueue {
    /** cmdq_drm[0 .. cmdq_drm_used) */
    var cmdqDrm: seq<u16>
    /** cmdq_objs[0 .. cmdq_obj_used) */
    var cmdqObjs: seq<u32>
    /** cmdq_obj_pos[0 .. cmdq_obj_used) */
    var cmdqObjPos: seq<nat>
    var cmdqDrmUsed: nat
    var cmdqObjUsed: nat
    var cmdqDrmSize: nat
    /** Some store since initialisation landed outside the three allocations. */
    ghost var overrun: bool
    /** Every batch handed to the kernel, in order. */
    ghost var log: seq<Drm.Submission>
    /** Every entry ever added, in order. */
    ghost var emitted: seq<u16>
    /** Every relocation handle ever recorded, in order. */
    ghost var emittedObjs: seq<u32>

    /** The batch a dispatch would hand to the kernel now. */
    ghost function Pending(): Drm.Batch
      reads this
    {
      Drm.Batch(2 * cmdqDrmUsed, cmdqDrm, cmdqObjUsed, cmdqObjs, cmdqObjPos)
    }

    /**
     * The counts match the live parts, the entry count stays even, every batch is well
     * formed, and the submitted entries followed by the pending ones are exactly the
     * entries emitted.
     */
    ghost predicate Valid()
      reads this
    {
      cmdqDrmSize == KMS_CMDQ_SIZE && |cmdqDrm| == cmdqDrmUsed && |cmdqObjs| == cmdqObjUsed &&
      |cmdqObjPos| == cmdqObjUsed && cmdqDrmUsed % 2 == 0 && 4 * cmdqObjUsed <= cmdqDrmUsed &&
      Drm.Consistent(Pending(), log, emitted, emittedObjs)
    }

    /** The buffer set-up of GlamoKMSExaInit: empty buffers, both counts 0, cmdq_drm_size 4096. */
    constructor Init()
      ensures Valid() && cmdqDrmUsed == 0 && cmdqObjUsed == 0 && cmdqDrmSize == KMS_CMDQ_SIZE
      ensures !overrun && log == [] && emitted == [] && emittedObjs == []
    {
      cmdqObjs := [];
      cmdqObjPos := [];
      cmdqObjUsed := 0;
      cmdqDrmUsed := 0;
      cmdqDrmSize := KMS_CMDQ_SIZE;
      cmdqDrm := [];
      overrun := false;
      log := [];
      emitted := [];
      emittedObjs := [];
    }

    /** GlamoDRMDispatch: submit 2*used bytes and every relocation whatever the kernel answers, then reset both counts. */
    method Dispatch(status: int)
      requires Valid()
      modifies this
      ensures Valid()
      ensures log == old(log) + [Drm.Submission(old(Pending()), status)]
      ensures cmdqDrmUsed == 0 && cmdqObjUsed == 0 && cmdqDrm == [] && cmdqObjs == [] && cmdqObjPos == []
      ensures emitted == old(emitted) && emittedObjs == old(emittedObjs) && overrun == old(overrun)
    {
      Drm.ConsistentDispatch(Pending(), log, emitted, emittedObjs, status);
      log := log + [Drm.Submission(Pending(), status)];
      cmdqObjUsed, cmdqObjs, cmdqObjPos := 0, [], [];
      cmdqDrmUsed, cmdqDrm := 0, [];
    }

    /** cmdq_drm[cmdq_drm_used++] = v */
    method Push(v: u16)
      requires |cmdqDrm| == cmdqDrmUsed
      modifies this
      ensures cmdqDrm == old(cmdqDrm) + [v] && cmdqDrmUsed == old(cmdqDrmUsed) + 1
      ensures emitted == old(emitted) + [v]
      ensures cmdqObjUsed == old(cmdqObjUsed) && cmdqObjs == old(cmdqObjs) && cmdqObjPos == old(cmdqObjPos)
      ensures cmdqDrmSize == old(cmdqDrmSize) && log == old(log) && emittedObjs == old(emittedObjs)
      ensures overrun == (old(overrun) || old(cmdqDrmUsed) >= DRM_ALLOC_ENTRIES)
    {
      overrun := overrun || cmdqDrmUsed >= DRM_ALLOC_ENTRIES;
      cmdqDrm := cmdqDrm + [v];
      cmdqDrmUsed := cmdqDrmUsed + 1;
      emitted := emitted + [v];
    }

    /** GlamoDRMAddCommand: a forced dispatch when the count equals cmdq_drm_size, then reg and val. */
    method AddCommand(reg: u16, val: u16, status: int)
      requires Valid()
      modifies this
      ensures Valid()
      ensures var flush := old(cmdqDrmUsed) == KMS_CMDQ_SIZE;
        log == (if flush then old(log) + [Drm.Submission(old(Pending()), status)] else old(log)) &&
        cmdqDrm == (if flush then [] else old(cmdqDrm)) + [reg, val] &&
        cmdqObjUsed == (if flush then 0 else old(cmdqObjUsed)) &&
        cmdqObjs == (if flush then [] else old(cmdqObjs)) &&
        cmdqObjPos == (if flush then [] else old(cmdqObjPos))
      ensures cmdqDrmUsed == Step(old(cmdqDrmUsed), 2)
      ensures emitted == old(emitted) + [reg, val] && emittedObjs == old(emittedObjs)
      ensures overrun == (old(overrun) || cmdqDrmUsed > DRM_ALLOC_ENTRIES)
    {
      if cmdqDrmUsed == cmdqDrmSize {
        Dispatch(status);
      }
      AppendPair(reg, val);
    }

    /** The two stores of AddCommand. */
    method AppendPair(reg: u16, val: u16)
      requires Valid()
      modifies this
      ensures Valid()
      ensures log == old(log) && cmdqObjUsed == old(cmdqObjUsed)
      ensures cmdqDrm == old(cmdqDrm) + [reg, val] && cmdqDrmUsed == old(cmdqDrmUsed) + 2
      ensures cmdqObjs == old(cmdqObjs) && cmdqObjPos == old(cmdqObjPos)
      ensures emitted == old(emitted) + [reg, val] && emittedObjs == old(emittedObjs)
      ensures overrun == (old(overrun) || cmdqDrmUsed > DRM_ALLOC_ENTRIES)
    {
      Drm.ConsistentPair(Pending(), log, emitted, emittedObjs, reg, val);
      Push(reg);
      Push(val);
      assert cmdqDrm == old(cmdqDrm) + [reg, val];
    }

    /**
     * GlamoDRMAddCommandBO: a forced dispatch when the count equals cmdq_drm_size,
     * then the handle, the byte position of the placeholder, and the placeholder.
     * There is no test on the number of relocations.
     */
    method AddCommandBO(reg: u16, bo: Drm.Bo, status: int)
      requires Valid()
      modifies this
      ensures Valid()
      ensures var flush := old(cmdqDrmUsed) == KMS_CMDQ_SIZE;
        var at := if flush then 0 else old(cmdqDrmUsed);
        log == (if flush then old(log) + [Drm.Submission(old(Pending()), status)] else old(log)) &&
        cmdqObjs == (if flush then [] else old(cmdqObjs)) + [bo.handle] &&
        cmdqObjPos == (if flush then [] else old(cmdqObjPos)) + [2 * at] &&
        cmdqObjUsed == (if flush then 0 else old(cmdqObjUsed)) + 1 &&
        cmdqDrm == (if flush then [] else old(cmdqDrm)) + Drm.Placeholder(reg)
      ensures cmdqDrmUsed == Step(old(cmdqDrmUsed), 4)
      ensures emitted == old(emitted) + Drm.Placeholder(reg) && emittedObjs == old(emittedObjs) + [bo.handle]
      ensures overrun == (old(overrun) || cmdqDrmUsed > DRM_ALLOC_ENTRIES || cmdqObjUsed > OBJ_ALLOC_ENTRIES)
    {
      if cmdqDrmUsed == cmdqDrmSize {
        Dispatch(status);
      }
      AppendRelocation(reg, bo);
    }

    /** The relocation record of AddCommandBO. */
    method Record(handle: u32)
      requires |cmdqObjs| == cmdqObjUsed && |cmdqObjPos| == cmdqObjUsed
      modifies this
      ensures cmdqObjs == old(cmdqObjs) + [handle] && cmdqObjPos == old(cmdqObjPos) + [2 * cmdqDrmUsed]
      ensures cmdqObjUsed == old(cmdqObjUsed) + 1
      ensures cmdqDrm == old(cmdqDrm) && cmdqDrmUsed == old(cmdqDrmUsed) && cmdqDrmSize == old(cmdqDrmSize)
      ensures log == old(log) && emitted == old(emitted) && emittedObjs == old(emittedObjs) + [handle]
      ensures overrun == (old(overrun) || old(cmdqObjUsed) >= OBJ_ALLOC_ENTRIES)
    {
      overrun := overrun || cmdqObjUsed >= OBJ_ALLOC_ENTRIES;
      cmdqObjs := cmdqObjs + [handle];
      cmdqObjPos := cmdqObjPos + [2 * cmdqDrmUsed];
      cmdqObjUsed := cmdqObjUsed + 1;
      emittedObjs := emittedObjs + [handle];
    }

    /** The four placeholder stores of AddCommandBO. */
    method PushPlaceholder(reg: u16)
      requires |cmdqDrm| == cmdqDrmUsed
      modifies this
      ensures cmdqDrm == old(cmdqDrm) + Drm.Placeholder(reg) && cmdqDrmUsed == old(cmdqDrmUsed) + 4
      ensures emitted == old(emitted) + Drm.Placeholder(reg)
      ensures cmdqObjUsed == old(cmdqObjUsed) && cmdqObjs == old(cmdqObjs) && cmdqObjPos == old(cmdqObjPos)
      ensures cmdqDrmSize == old(cmdqDrmSize) && log == old(log) && emittedObjs == old(emittedObjs)
      ensures overrun == (old(overrun) || cmdqDrmUsed > DRM_ALLOC_ENTRIES)
    {
      Push(reg);
      Push(0);
      Push((reg + 2) % 0x1_0000);
      Push(0);
      assert cmdqDrm == old(cmdqDrm) + Drm.Placeholder(reg);
      assert emitted == old(emitted) + Drm.Placeholder(reg);
    }

    /** The stores of AddCommandBO. */
    method AppendRelocation(reg: u16, bo: Drm.Bo)
      requires Valid()
      modifies this
      ensures Valid()
      ensures log == old(log)
      ensures cmdqObjs == old(cmdqObjs) + [bo.handle] && cmdqObjPos == old(cmdqObjPos) + [2 * old(cmdqDrmUsed)]
      ensures cmdqObjUsed == old(cmdqObjUsed) + 1
      ensures cmdqDrm == old(cmdqDrm) + Drm.Placeholder(reg) && cmdqDrmUsed == old(cmdqDrmUsed) + 4
      ensures emitted == old(emitted) + Drm.Placeholder(reg) && emittedObjs == old(emittedObjs) + [bo.handle]
      ensures overrun == (old(overrun) || cmdqDrmUsed > DRM_ALLOC_ENTRIES || cmdqObjUsed > OBJ_ALLOC_ENTRIES)
    {
      ghost var b := Pending();
      Drm.ConsistentRelocation(b, log, emitted, emittedObjs, reg, bo.handle);
      Record(bo.handle);
      PushPlaceholder(reg);
      assert Pending() == Drm.Batch(b.bufsz + 8, b.cmds + Drm.Placeholder(reg), b.nobjs + 1, b.objs + [bo.handle],
        b.objPos + [2 * |b.cmds|]);
    }
  }

  /**
   * The set-up entries of a blit between its two relocations and after the second:
   * the source pitch, then the destination pitch, height and op.
   */
  function CopySetup(srcPitch: u16, dstPitch: u16, height: u16, op: u16): (r: seq<u16>)
    ensures |r| == 20
    ensures r[..4] == Drm.Placeholder(REG_2D_SRC_ADDRL) && r[4..6] == [REG_2D_SRC_PITCH, srcPitch]
    ensures r[6..10] == Drm.Placeholder(REG_2D_DST_ADDRL)
    ensures Program(r[10..], [REG_2D_DST_PITCH, REG_2D_DST_HEIGHT, REG_2D_COMMAND2, REG_2D_ID1, REG_2D_ID2])
    ensures r[11] == dstPitch && r[13] == height && r[15] == op && r[17] == 0 && r[19] == 0
  {
    Drm.Placeholder(REG_2D_SRC_ADDRL) + [REG_2D_SRC_PITCH, srcPitch] +
    Drm.Placeholder(REG_2D_DST_ADDRL) + [REG_2D_DST_PITCH, dstPitch, REG_2D_DST_HEIGHT, height] + OpTail(op)
  }

  /** The relocations and pairs PrepareCopy adds one by one make up CopySetup. */
  lemma CopySetupPairs(e: seq<u16>, srcPitch: u16, dstPitch: u16, height: u16, op: u16)
    ensures e + Drm.Placeholder(REG_2D_SRC_ADDRL) + [REG_2D_SRC_PITCH, srcPitch] +
      Drm.Placeholder(REG_2D_DST_ADDRL) + [REG_2D_DST_PITCH, dstPitch] + [REG_2D_DST_HEIGHT, height] +
      [REG_2D_COMMAND2, op] + [REG_2D_ID1, 0] + [REG_2D_ID2, 0] == e + CopySetup(srcPitch, dstPitch, height, op)
  {
  }

  /**
   * GlamoKMSExaPrepareSolid: fall back unless the pixmap has 16 bits per pixel and
   * the planemask covers all 16 bits; otherwise relocate the destination and program
   * pitch, height, colour and op.  The buffer object is dereferenced unchecked, so
   * an accelerated call needs one.
   */
  method PrepareSolid(q: KmsQueue, pix: Pixmap, alu: nat, pm: u32, fg: u32, status: int) returns (ok: bool)
    requires q.Valid() && alu < 16
    requires Accelerated(pix.bitsPerPixel, pm) ==> pix.priv != null && pix.priv.bo.Some?
    modifies q
    ensures q.Valid()
    ensures ok == Accelerated(pix.bitsPerPixel, pm)
    ensures !ok ==> q.emitted == old(q.emitted) && q.emittedObjs == old(q.emittedObjs) && q.log == old(q.log)
    ensures ok ==>
      q.emitted == old(q.emitted) + Drm.Placeholder(REG_2D_DST_ADDRL) +
                   SolidSetup(Pitch11(pix.devKind), pix.height, U16(fg), Rop.OpWord(Rop.GLAMO_SOLID_ROP[alu]))
    ensures ok ==> q.emittedObjs == old(q.emittedObjs) + [pix.priv.bo.value.handle]
  {
    var priv := pix.priv;
    if pix.bitsPerPixel != 16 {
      return false;
    }
    if And(pm, 0xffff) != 0xffff {
      return false;
    }
    var op := Rop.OpWord(Rop.GLAMO_SOLID_ROP[alu]);
    var pitch := Pitch11(pix.devKind);
    EmitSolidSetup(q, priv.bo.value, pitch, pix.height, U16(fg), op, status);
    ok := true;
  }

  /** Lines 220-226 of PrepareSolid: the destination relocation and the six set-up commands. */
  method EmitSolidSetup(q: KmsQueue, bo: Drm.Bo, pitch: u16, height: u16, fg: u16, op: u16, status: int)
    requires q.Valid()
    modifies q
    ensures q.Valid()
    ensures q.emitted == old(q.emitted) + Drm.Placeholder(REG_2D_DST_ADDRL) + SolidSetup(pitch, height, fg, op)
    ensures q.emittedObjs == old(q.emittedObjs) + [bo.handle]
  {
    ghost var e0 := q.emitted + Drm.Placeholder(REG_2D_DST_ADDRL);
    q.AddCommandBO(REG_2D_DST_ADDRL, bo, status);
    q.AddCommand(REG_2D_DST_PITCH, pitch, status);
    q.AddCommand(REG_2D_DST_HEIGHT, height, status);
    q.AddCommand(REG_2D_PAT_FG, fg, status);
    q.AddCommand(REG_2D_COMMAND2, op, status);
    q.AddCommand(REG_2D_ID1, 0, status);
    q.AddCommand(REG_2D_ID2, 0, status);
    SolidSetupPairs(e0, pitch, height, fg, op);
  }

  /** GlamoKMSExaSolid: the rectangle of the fill. */
  method Solid(q: KmsQueue, x1: int, y1: int, x2: int, y2: int, status: int)
    requires q.Valid()
    modifies q
    ensures q.Valid()
    ensures q.emitted == old(q.emitted) + SolidRect(x1, y1, x2, y2) && q.emittedObjs == old(q.emittedObjs)
  {
    ghost var e0 := q.emitted;
    q.AddCommand(REG_2D_DST_X, U16(x1), status);
    q.AddCommand(REG_2D_DST_Y, U16(y1), status);
    q.AddCommand(REG_2D_RECT_WIDTH, U16(x2 - x1), status);
    q.AddCommand(REG_2D_RECT_HEIGHT, U16(y2 - y1), status);
    q.AddCommand(REG_2D_COMMAND3, 0, status);
    SolidRectPairs(e0, x1, y1, x2, y2);
  }

  /**
   * GlamoKMSExaPrepareCopy: fall back unless both pixmaps have 16 bits per pixel and
   * the planemask is full; otherwise relocate the source, then the destination, and
   * program the pitches, the height and the op.  The offsets the function computes
   * are not used.
   */
  method PrepareCopy(q: KmsQueue, src: Pixmap, dst: Pixmap, dx: int, dy: int, alu: nat, pm: u32, status: int)
    returns (ok: bool)
    requires q.Valid() && alu < 16
    requires Accelerated(src.bitsPerPixel, pm) && dst.bitsPerPixel == 16 ==>
      src.priv != null && src.priv.bo.Some? && dst.priv != null && dst.priv.bo.Some?
    modifies q
    ensures q.Valid()
    ensures ok == (Accelerated(src.bitsPerPixel, pm) && dst.bitsPerPixel == 16)
    ensures !ok ==> q.emitted == old(q.emitted) && q.emittedObjs == old(q.emittedObjs) && q.log == old(q.log)
    ensures ok ==>
      q.emitted == old(q.emitted) +
                   CopySetup(Pitch11(src.devKind), Pitch11(dst.devKind), dst.height, Rop.OpWord(Rop.GLAMO_BLT_ROP[alu]))
    ensures ok ==> q.emittedObjs == old(q.emittedObjs) + [src.priv.bo.value.handle] + [dst.priv.bo.value.handle]
  {
    var privSrc := src.priv;
    var privDst := dst.priv;
    if src.bitsPerPixel != 16 || dst.bitsPerPixel != 16 {
      return false;
    }
    if And(pm, 0xffff) != 0xffff {
      return false;
    }
    var srcPitch := Pitch11(src.devKind);
    var dstPitch := Pitch11(dst.devKind);
    var op := Rop.OpWord(Rop.GLAMO_BLT_ROP[alu]);
    EmitCopySetup(q, privSrc.bo.value, privDst.bo.value, srcPitch, dstPitch, dst.height, op, status);
    ok := true;
  }

  /** Lines 286-297 of PrepareCopy: both relocations and the set-up commands. */
  method EmitCopySetup(q: KmsQueue, srcBo: Drm.Bo, dstBo: Drm.Bo, srcPitch: u16, dstPitch: u16, height: u16,
                       op: u16, status: int)
    requires q.Valid()
    modifies q
    ensures q.Valid()
    ensures q.emitted == old(q.emitted) + CopySetup(srcPitch, dstPitch, height, op)
    ensures q.emittedObjs == old(q.emittedObjs) + [srcBo.handle] + [dstBo.handle]
  {
    ghost var e0 := q.emitted;
    q.AddCommandBO(REG_2D_SRC_ADDRL, srcBo, status);
    q.AddCommand(REG_2D_SRC_PITCH, srcPitch, status);
    q.AddCommandBO(REG_2D_DST_ADDRL, dstBo, status);
    q.AddCommand(REG_2D_DST_PITCH, dstPitch, status);
    q.AddCommand(REG_2D_DST_HEIGHT, height, status);
    q.AddCommand(REG_2D_COMMAND2, op, status);
    q.AddCommand(REG_2D_ID1, 0, status);
    q.AddCommand(REG_2D_ID2, 0, status);
    CopySetupPairs(e0, srcPitch, dstPitch, height, op);
  }

  /** GlamoKMSExaCopy: the rectangles of the blit. */
  method Copy(q: KmsQueue, srcX: int, srcY: int, dstX: int, dstY: int, width: int, height: int, status: int)
    requires q.Valid()
    modifies q
    ensures q.Valid()
    ensures q.emitted == old(q.emitted) + CopyRect(srcX, srcY, dstX, dstY, width, height)
    ensures q.emittedObjs == old(q.emittedObjs)
  {
    ghost var e0 := q.emitted;
    q.AddCommand(REG_2D_SRC_X, U16(srcX), status);
    q.AddCommand(REG_2D_SRC_Y, U16(srcY), status);
    q.AddCommand(REG_2D_DST_X, U16(dstX), status);
    q.AddCommand(REG_2D_DST_Y, U16(dstY), status);
    q.AddCommand(REG_2D_RECT_WIDTH, U16(width), status);
    q.AddCommand(REG_2D_RECT_HEIGHT, U16(height), status);
    q.AddCommand(REG_2D_COMMAND3, 0, status);
    CopyRectPairs(e0, srcX, srcY, dstX, dstY, width, height);
  }

  /**
   * GlamoKMSExaDoneSolid and GlamoKMSExaDoneCopy (identical): submit what is pending.
   * The exaMarkSync that follows is X server code.
   */
  method Done(q: KmsQueue, status: int)
    requires q.Valid()
    modifies q
    ensures q.Valid()
    ensures q.log == old(q.log) + [Drm.Submission(old(q.Pending()), status)]
    ensures q.cmdqDrmUsed == 0 && q.cmdqObjUsed == 0 && q.emitted == old(q.emitted)
  {
    q.Dispatch(status);
  }

  /** After a Done, everything ever emitted has been handed to the kernel. */
  lemma DoneSubmitsAll(q: KmsQueue)
    requires q.Valid() && q.cmdqDrmUsed == 0 && q.cmdqObjUsed == 0
    ensures Drm.Flatten(q.log) == q.emitted && Drm.FlattenObjs(q.log) == q.emittedObjs
  {
    assert q.Pending().cmds == [] && q.Pending().objs == [];
    assert Drm.Flatten(q.log) + [] == Drm.Flatten(q.log);
    assert Drm.FlattenObjs(q.log) + [] == Drm.FlattenObjs(q.log);
  }

  /** GlamoKMSExaPixmapIsOffscreen: the pixmap has a private with a buffer object. */
  predicate PixmapIsOffscreen(pix: Pixmap)
    reads pix, pix.priv
  {
    pix.priv != null && pix.priv.bo.Some?
  }

  /**
   * GlamoKMSExaPrepareAccess: no private fails; no buffer object succeeds without a
   * mapping; otherwise the object is mapped (`mapFails` is the outcome of
   * glamo_bo_map, `virtualAddr` the address it yields) and the pixmap points at it.
   */
  method PrepareAccess(pix: Pixmap, mapFails: bool, virtualAddr: nat) returns (ok: bool)
    modifies pix`devPrivatePtr
    ensures ok == (pix.priv != null && (pix.priv.bo.None? || !mapFails))
    ensures pix.devPrivatePtr == (if PixmapIsOffscreen(pix) && !mapFails then virtualAddr else old(pix.devPrivatePtr))
  {
    var priv := pix.priv;
    if priv == null {
      return false;
    }
    if priv.bo.None? {
      return true;
    }
    if mapFails {
      return false;
    }
    pix.devPrivatePtr := virtualAddr;
    ok := true;
  }

  /**
   * miModifyPixmapHeader with no pixel data: each positive field argument replaces the
   * pixmap's own, truncated to the width of its field; the rest stay.
   */
  method MiModifyPixmapHeader(pix: Pixmap, width: int, height: int, depth: int, bitsPerPixel: int, devKind: int)
    modifies pix`width, pix`height, pix`depth, pix`bitsPerPixel, pix`devKind
    ensures pix.width as int == if width > 0 then width % 0x1_0000 else old(pix.width) as int
    ensures pix.height as int == if height > 0 then height % 0x1_0000 else old(pix.height) as int
    ensures pix.depth as int == if depth > 0 then depth % 0x100 else old(pix.depth) as int
    ensures pix.bitsPerPixel as int == if bitsPerPixel > 0 then bitsPerPixel % 0x100 else old(pix.bitsPerPixel) as int
    ensures pix.devKind == if devKind > 0 then devKind else old(pix.devKind)
  {
    if width > 0 { pix.width := (width % 0x1_0000) as u16; }
    if height > 0 { pix.height := (height % 0x1_0000) as u16; }
    if depth > 0 { pix.depth := (depth % 0x100) as u8; }
    if bitsPerPixel > 0 { pix.bitsPerPixel := (bitsPerPixel % 0x100) as u8; }
    if devKind > 0 { pix.devKind := devKind; }
  }

  /**
   * GlamoKMSExaModifyPixmapHeader: non-positive arguments are replaced by the pixmap's
   * own values; a non-positive width, height or depth then fails.  Otherwise
   * miModifyPixmapHeader, called with no pixel data, stores the width, height, depth
   * and a positive bits-per-pixel into the drawable (truncated to its CARD16 and CARD8
   * fields) and a positive devKind into the pixmap.  A pixmap without a
   * private is fatal.  A pixmap without a buffer object is given one of
   * (width * height * depth) / 8 bytes (`requested`); `openResult` is what glamo_bo_open
   * returns.  The result is FALSE on every path.
   */
  method ModifyPixmapHeader(pix: Pixmap, width: int, height: int, depth: int, bitsPerPixel: int, devKind: int,
                            openResult: Option<Drm.Bo>)
    returns (r: bool, fatal: bool, requested: Option<int>)
    modifies pix, pix.priv
    ensures !r
    ensures pix.priv == old(pix.priv) && pix.offset == old(pix.offset) && pix.devPrivatePtr == old(pix.devPrivatePtr)
    ensures var w := if width <= 0 then old(pix.width) as int else width;
      var h := if height <= 0 then old(pix.height) as int else height;
      var d := if depth <= 0 then old(pix.depth) as int else depth;
      var bpp := if bitsPerPixel <= 0 then old(pix.bitsPerPixel) as int else bitsPerPixel;
      var proceed := w > 0 && h > 0 && d > 0;
      (proceed ==> pix.width as int == w % 0x1_0000 && pix.height as int == h % 0x1_0000 &&
                   pix.depth as int == d % 0x100) &&
      (!proceed ==> pix.width == old(pix.width) && pix.height == old(pix.height) && pix.depth == old(pix.depth)) &&
      pix.bitsPerPixel as int == (if proceed && bpp > 0 then bpp % 0x100 else old(pix.bitsPerPixel) as int) &&
      pix.devKind == (if proceed && devKind > 0 then devKind else old(pix.devKind)) &&
      fatal == (proceed && pix.priv == null) &&
      requested == (if proceed && pix.priv != null && old(pix.priv.bo).None? then Some((w * h * d) / 8) else None) &&
      (pix.priv != null ==> pix.priv.bo == (if requested.Some? then openResult else old(pix.priv.bo)))
  {
    var d := depth;
    var w := width;
    var h := height;
    if d <= 0 { d := pix.depth as int; }
    if w <= 0 { w := pix.width as int; }
    if h <= 0 { h := pix.height as int; }
    requested := None;
    var bpp := bitsPerPixel;
    if bpp <= 0 { bpp := pix.bitsPerPixel as int; }
    if w <= 0 || h <= 0 || d <= 0 {
      return false, false, None;
    }
    MiModifyPixmapHeader(pix, w, h, d, bpp, devKind);
    var priv := pix.priv;
    if priv == null {
      return false, true, None;
    }
    fatal := false;
    if priv.bo.None? {
      var size := (w * h * d) / 8;
      requested := Some(size);
      priv.bo := openResult;
      if priv.bo.None? {
        return false, false, requested;
      }
    }
    r := false;
  }
}
