/**
 * The command-writing macros of glamo-drm-cmdq.h, as the state of RING_LOCALS.
 * BEGIN_CMDQ(n) points `__head` at the free end of `cmd_queue`, OUT_PAIR and friends
 * store 16-bit entries through it, and END_CMDQ adds the bytes written to
 * `cmd_queue->used`.  The build flag CCE_DEBUG adds two run-time checks: END_CMDQ is
 * fatal unless exactly n entries were written, and OUT_BURST_REG is fatal unless it
 * names the next register of the current burst and the burst is not yet full.
 * FatalError does not return; after it the model's `aborted` is set and nothing runs.
 *
 * BEGIN_CMDQ flushes with GlamoDRMDispatch, which empties the DRM staging buffer and
 * not `cmd_queue`: the model keeps that behaviour.
 */
module DrmCmdq {
  import opened Bits
  import opened Glamo
  import Drm

  /** The registers `regs` named by OUT_BURST_REG after OUT_BURST(start, n): start, start+2, ..., at most n of them. */
  predicate BurstOk(start: int, n: int, regs: seq<u16>)
  {
    |regs| <= n && forall i :: 0 <= i < |regs| ==> regs[i] == start + 2 * i
  }

  /** One more register is accepted exactly when it is the next one and the burst has room. */
  lemma BurstOkSnoc(start: int, n: int, regs: seq<u16>, r: u16)
    ensures BurstOk(start, n, regs + [r]) <==> BurstOk(start, n, regs) && r == start + 2 * |regs| && |regs| < n
  {
    if BurstOk(start, n, regs + [r]) {
      forall i | 0 <= i < |regs| ensures regs[i] == start + 2 * i {
        assert (regs + [r])[i] == regs[i];
      }
      assert (regs + [r])[|regs|] == r;
    }
  }

  /** The burst header OUT_BURST writes: bit 15 set over the register offset. */
  function BurstHeader(r: u16): (h: u16)
    ensures h == Or(0x8000, r)
  {
    Pow2Values();
    Or16(0x8000, r)
  }

  /** The locals RING_LOCALS declares, and the driver state the macros reach through pGlamo. */
  class RingLocals {
    /** CCE_DEBUG */
    const debug: bool
    /** pGlamo->cmd_queue */
    const queue: MemBuf
    /** the cmdq_* fields of pGlamo */
    const drm: Drm.DrmQueue
    /**
     * The byte tables `__objs` and `__obj_pos` index into.  In the driver they point
     * into pGlamo->cmdq_objs and cmdq_obj_pos; here they are arrays of their own, apart
     * from the tables Drm.DrmQueue submits.
     */
    const objsBytes: array<u8>
    const objPosBytes: array<u8>
    /** __head, as a byte offset into queue.data */
    var head: nat
    var count: nat
    var objects: nat
    /** __objs and __obj_pos, as byte offsets into the two views */
    var objsBase: nat
    var objPosBase: nat
    /** the debug-only locals __total, __reg and __packet0count */
    var total: int
    var reg: int
    var packet0count: int
    /** FatalError was called */
    var aborted: bool
    /** The entries written since BEGIN_CMDQ. */
    ghost var block: seq<u16>
    /** The last OUT_BURST(burstStart, burstN) and the registers named since. */
    ghost var burstStart: int
    ghost var burstN: int
    ghost var burstRegs: seq<u16>

    ghost predicate Separate()
      reads queue`data
    {
      queue.data != objsBytes && queue.data != objPosBytes && objsBytes != objPosBytes
    }

    /**
     * The entries of the block are stored at head, one after another; in a debug build
     * __reg and __packet0count are the next register and the room left in the burst.
     */
    ghost predicate Tracks()
      reads this`head, this`count, this`block, this`reg, this`packet0count
      reads this`burstStart, this`burstN, this`burstRegs, queue`data, queue.data
    {
      count == |block| && head + 2 * count <= queue.data.Length &&
      queue.data[head .. head + 2 * count] == Encode(block) &&
      (debug ==>
        reg == burstStart + 2 * |burstRegs| && packet0count == burstN - |burstRegs| &&
        BurstOk(burstStart, burstN, burstRegs))
    }

    /** RING_LOCALS: nothing begun yet. */
    constructor (debug: bool, queue: MemBuf, drm: Drm.DrmQueue, objsBytes: array<u8>, objPosBytes: array<u8>)
      ensures this.debug == debug && this.queue == queue && this.drm == drm
      ensures this.objsBytes == objsBytes && this.objPosBytes == objPosBytes
      ensures !aborted && count == 0 && objects == 0 && block == []
    {
      this.debug := debug;
      this.queue := queue;
      this.drm := drm;
      this.objsBytes := objsBytes;
      this.objPosBytes := objPosBytes;
      head, count, objects, objsBase, objPosBase := 0, 0, 0, 0, 0;
      total, reg, packet0count := 0, 0, 0;
      aborted := false;
      block := [];
      burstStart, burstN, burstRegs := 0, 0, [];
    }

    /**
     * BEGIN_CMDQ(n): flush the DRM staging buffer when n more entries would not fit in
     * cmd_queue (`status` is the kernel's answer), then start a block at cmd_queue->used.
     * cmd_queue->used is the same afterwards, flushed or not.
     */
    method Begin(n: nat, status: int)
      requires !aborted && queue.Valid() && drm.Valid()
      modifies this`head, this`count, this`objects, this`objsBase, this`objPosBase, this`total, this`reg
      modifies this`packet0count, this`block, this`burstStart, this`burstN, this`burstRegs
      modifies drm`log, drm`cmdqDrmUsed, drm`cmdqObjUsed
      ensures drm.Valid() && !aborted
      ensures var flush := old(queue.used) + 2 * n > queue.size;
        drm.log == (if flush then old(drm.log) + [Drm.Submission(old(drm.Pending()), status)] else old(drm.log)) &&
        drm.cmdqDrmUsed == (if flush then 0 else old(drm.cmdqDrmUsed)) &&
        drm.cmdqObjUsed == (if flush then 0 else old(drm.cmdqObjUsed))
      ensures queue.used == old(queue.used)
      ensures head == queue.used && count == 0 && objects == 0 && block == []
      ensures objsBase == 2 * drm.cmdqObjUsed && objPosBase == 2 * drm.cmdqObjUsed
      ensures debug ==> total == n && reg == 0 && packet0count == 0
      ensures queue.used <= queue.data.Length ==> Tracks()
    {
      if queue.used + 2 * n > queue.size {
        drm.Dispatch(status);
      }
      StartBlock(n);
      if queue.used <= queue.data.Length {
        assert queue.data[head .. head + 2 * count] == [];
      }
    }

    /** The assignments of BEGIN_CMDQ after the flush test. */
    method StartBlock(n: nat)
      requires queue.Valid()
      modifies this`head, this`count, this`objects, this`objsBase, this`objPosBase, this`total, this`reg
      modifies this`packet0count, this`block, this`burstStart, this`burstN, this`burstRegs
      ensures head == queue.used && count == 0 && objects == 0 && block == []
      ensures objsBase == 2 * drm.cmdqObjUsed && objPosBase == 2 * drm.cmdqObjUsed
      ensures debug ==> total == n && reg == 0 && packet0count == 0
      ensures burstStart == 0 && burstN == 0 && burstRegs == []
    {
      head, count := queue.used, 0;
      if debug {
        total, reg, packet0count := n, 0, 0;
      }
      objects, objsBase, objPosBase := 0, drm.cmdqObjUsed * 2, drm.cmdqObjUsed * 2;
      block, burstStart, burstN, burstRegs := [], 0, 0, [];
    }

    /** __head[__count++] = v */
    method Out(v: u16)
      requires Tracks() && head + 2 * count + 2 <= queue.data.Length
      modifies this`count, this`block, queue.data
      ensures Tracks()
      ensures count == old(count) + 1 && block == old(block) + [v]
      ensures queue.data[..] == old(queue.data[..])[old(head + 2 * count) := LE16(v)[0]][old(head + 2 * count) + 1 := LE16(v)[1]]
    {
      ghost var stored := queue.data[head .. head + 2 * count];
      Store16(queue.data, head + 2 * count, v);
      count := count + 1;
      block := block + [v];
      assert queue.data[head .. head + 2 * count] == stored + LE16(v);
      EncodeAppend(old(block), [v]);
    }

    /** OUT_PAIR(v1, v2), which is also OUT_REG(reg, val). */
    method OutPair(v1: u16, v2: u16)
      requires !aborted && Tracks() && head + 2 * count + 4 <= queue.data.Length
      modifies this`count, this`block, queue.data
      ensures Tracks() && !aborted
      ensures count == old(count) + 2 && block == old(block) + [v1, v2]
      ensures var at := old(head + 2 * count);
        queue.data[..] == old(queue.data[..])[at := LE16(v1)[0]][at + 1 := LE16(v1)[1]]
          [at + 2 := LE16(v2)[0]][at + 3 := LE16(v2)[1]]
    {
      Out(v1);
      Out(v2);
    }

    /**
     * OUT_REG_BO(reg, bo): the low byte of the handle and of __count go to the char views
     * at __objects, then the placeholder reg, 0, reg+2, 0 is written.
     */
    method OutRegBO(r: u16, bo: Drm.Bo)
      requires !aborted && Tracks() && Separate() && head + 2 * count + 8 <= queue.data.Length
      requires objsBase + objects < objsBytes.Length && objPosBase + objects < objPosBytes.Length
      modifies this`count, this`block, this`objects, queue.data, objsBytes, objPosBytes
      ensures Tracks() && !aborted
      ensures objsBytes[..] == old(objsBytes[..])[old(objsBase + objects) := bo.handle % 0x100]
      ensures objPosBytes[..] == old(objPosBytes[..])[old(objPosBase + objects) := old(count) % 0x100]
      ensures objects == old(objects) + 1
      ensures count == old(count) + 4 && block == old(block) + Drm.Placeholder(r)
      ensures queue.data[..old(head + 2 * count)] == old(queue.data[..head + 2 * count])
      ensures queue.data[old(head + 2 * count) + 8..] == old(queue.data[head + 2 * count + 8..])
    {
      RecordObject(bo);
      OutPair(r, 0);
      OutPair((r + 2) % 0x1_0000, 0);
    }

    /** The first half of OUT_REG_BO: the handle and the entry position go to the char views. */
    method RecordObject(bo: Drm.Bo)
      requires Separate()
      requires objsBase + objects < objsBytes.Length && objPosBase + objects < objPosBytes.Length
      modifies this`objects, objsBytes, objPosBytes
      ensures objsBytes[..] == old(objsBytes[..])[old(objsBase + objects) := bo.handle % 0x100]
      ensures objPosBytes[..] == old(objPosBytes[..])[old(objPosBase + objects) := count % 0x100]
      ensures objects == old(objects) + 1
    {
      objsBytes[objsBase + objects] := bo.handle % 0x100;
      objPosBytes[objPosBase + objects] := count % 0x100;
      objects := objects + 1;
    }

    /** OUT_BURST(reg, n): the header pair; a debug build also starts tracking the burst. */
    method OutBurst(r: u16, n: nat)
      requires !aborted && Tracks() && head + 2 * count + 4 <= queue.data.Length
      modifies this`count, this`block, this`reg, this`packet0count, this`burstStart, this`burstN, this`burstRegs, queue.data
      ensures Tracks() && !aborted
      ensures count == old(count) + 2 && block == old(block) + [BurstHeader(r), n % 0x1_0000]
      ensures var at := old(head + 2 * count);
        queue.data[..] == old(queue.data[..])[at := LE16(BurstHeader(r))[0]][at + 1 := LE16(BurstHeader(r))[1]]
          [at + 2 := LE16(n % 0x1_0000)[0]][at + 3 := LE16(n % 0x1_0000)[1]]
      ensures debug ==> reg == r && packet0count == n && burstRegs == []
      ensures !debug ==> reg == old(reg) && packet0count == old(packet0count)
    {
      OutPair(BurstHeader(r), n % 0x1_0000);
      if debug {
        reg := r;
        packet0count := n;
        burstStart, burstN, burstRegs := r, n, [];
      }
    }

    /**
     * OUT_BURST_REG(reg, val): one value entry.  In a debug build it is fatal unless
     * reg is the next register of the burst and the burst still has room.
     */
    method OutBurstReg(r: u16, val: u16)
      requires !aborted && Tracks() && head + 2 * count + 2 <= queue.data.Length
      modifies this`count, this`block, this`reg, this`packet0count, this`burstRegs, this`aborted, queue.data
      ensures debug ==> (aborted <==> !BurstOk(burstStart, burstN, old(burstRegs) + [r]))
      ensures !debug ==> !aborted
      ensures aborted ==> queue.data[..] == old(queue.data[..]) && block == old(block)
      ensures !aborted ==>
        Tracks() && count == old(count) + 1 && block == old(block) + [val] &&
        queue.data[..] == old(queue.data[..])[old(head + 2 * count) := LE16(val)[0]][old(head + 2 * count) + 1 := LE16(val)[1]]
      ensures !aborted && debug ==> burstRegs == old(burstRegs) + [r]
    {
      BurstOkSnoc(burstStart, burstN, burstRegs, r);
      if debug {
        if reg != r {
          aborted := true;
          return;
        }
        if packet0count <= 0 {
          aborted := true;
          return;
        }
      }
      Out(val);
      if debug {
        packet0count := packet0count - 1;
        reg := reg + 2;
        burstRegs := burstRegs + [r];
      }
    }

    /**
     * END_CMDQ: add the bytes written to cmd_queue->used.  A debug build is fatal if the
     * block does not hold exactly the n entries BEGIN_CMDQ announced, and adds the
     * relocations to cmdq_objs_used; the other build records them nowhere.
     */
    method End()
      requires !aborted
      modifies this`aborted, queue`used, drm`cmdqObjsUsed
      ensures debug ==> (aborted <==> count != total)
      ensures !debug ==> !aborted
      ensures queue.used == (if aborted then old(queue.used) else old(queue.used) + 2 * count)
      ensures drm.cmdqObjsUsed == (if debug && !aborted then old(drm.cmdqObjsUsed) + objects else old(drm.cmdqObjsUsed))
      ensures !aborted && old(Tracks()) && head == old(queue.used) ==> queue.data[head .. queue.used] == Encode(block)
    {
      if debug {
        if count != total {
          aborted := true;
          return;
        }
      }
      queue.used := queue.used + count * 2;
      if debug {
        drm.cmdqObjsUsed := drm.cmdqObjsUsed + objects;
      }
    }
  }
}
