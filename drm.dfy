/**
 * The kernel-submission staging buffer of glamo-drm.c.  Commands are 16-bit
 * register/value entries collected in `cmdq_drm`; an entry pair that names a buffer
 * object is a relocation: the object's handle goes to `cmdq_objs`, the byte position
 * of its `reg, 0, reg+2, 0` placeholder to `cmdq_obj_pos`, and the kernel patches the
 * placeholder with the object's address.  GlamoDRMDispatch hands everything to the
 * DRM_GLAMO_CMDBUF ioctl, which is modelled as appending the batch to a ghost log.
 *
 * The `cmdq_*` fields are not declared in GlamoRec of glamo.h; they are declared here,
 * in a class of their own.
 */
module Drm {
  import opened Bits
  import opened Glamo

  /** How many 16-bit entries are stored before a forced dispatch. */
  const GLAMO_CMDQ_MAX_COUNT: nat := 1024

  /** A buffer object, as the command stream refers to it: by its kernel handle. */
  datatype Bo = Bo(handle: u32)

  /** drm_glamo_cmd_buffer_t: the entries (bufsz bytes of them) and the relocations. */
  datatype Batch = Batch(bufsz: nat, cmds: seq<u16>, nobjs: nat, objs: seq<u32>, objPos: seq<nat>)

  /** One DRM_GLAMO_CMDBUF call and the status the kernel returned. */
  datatype Submission = Submission(batch: Batch, status: int)

  /** The entries of a sequence of submissions, in submission order. */
  function Flatten(log: seq<Submission>): seq<u16>
  {
    if log == [] then [] else Flatten(log[..|log| - 1]) + log[|log| - 1].batch.cmds
  }

  /** The relocation handles of a sequence of submissions, in submission order. */
  function FlattenObjs(log: seq<Submission>): seq<u32>
  {
    if log == [] then [] else FlattenObjs(log[..|log| - 1]) + log[|log| - 1].batch.objs
  }

  /** The four entries a relocation of register reg occupies: reg, 0, reg+2 (as uint16_t), 0. */
  function Placeholder(reg: u16): (r: seq<u16>)
    ensures |r| == 4 && r[0] == reg && r[1] == 0 && r[3] == 0
    ensures r[2] == if reg < 0xfffe then reg + 2 else reg + 2 - 0x1_0000
  {
    [reg, 0, (reg + 2) % 0x1_0000, 0]
  }

  /** Entries i .. i+3 hold a placeholder: a register, 0, the register plus 2 (as uint16_t), 0. */
  ghost predicate PlaceholderAt(cmds: seq<u16>, i: nat)
  {
    i + 4 <= |cmds| && cmds[i + 1] == 0 && cmds[i + 2] == (cmds[i] as int + 2) % 0x1_0000 && cmds[i + 3] == 0
  }

  /** A placeholder sits at i exactly when the four entries from i are Placeholder of the first. */
  lemma PlaceholderAtSlice(cmds: seq<u16>, i: nat)
    requires i + 4 <= |cmds|
    ensures PlaceholderAt(cmds, i) <==> cmds[i .. i + 4] == Placeholder(cmds[i])
  {
    if cmds[i .. i + 4] == Placeholder(cmds[i]) {
      assert cmds[i + 1] == cmds[i .. i + 4][1];
      assert cmds[i + 2] == cmds[i .. i + 4][2];
      assert cmds[i + 3] == cmds[i .. i + 4][3];
    }
  }

  /**
   * Every relocation position is an even byte offset whose entry starts a placeholder
   * inside the entries, and the placeholders follow one another without overlapping.
   */
  ghost predicate RelocsOk(cmds: seq<u16>, pos: seq<nat>)
  {
    (forall k :: 0 <= k < |pos| ==> pos[k] % 2 == 0 && PlaceholderAt(cmds, pos[k] / 2)) &&
    (forall i, j :: 0 <= i < j < |pos| ==> pos[i] + 8 <= pos[j])
  }

  /** A batch the kernel can process: the byte size matches the entries, and every relocation is sound. */
  ghost predicate WellFormed(b: Batch)
  {
    b.bufsz == 2 * |b.cmds| && b.nobjs == |b.objs| == |b.objPos| && RelocsOk(b.cmds, b.objPos)
  }

  lemma RelocsOkExtend(cmds: seq<u16>, pos: seq<nat>, more: seq<u16>)
    requires RelocsOk(cmds, pos)
    ensures RelocsOk(cmds + more, pos)
  {
    forall k | 0 <= k < |pos| ensures PlaceholderAt(cmds + more, pos[k] / 2) {
      var i := pos[k] / 2;
      assert PlaceholderAt(cmds, i);
      assert (cmds + more)[i] == cmds[i] && (cmds + more)[i + 1] == cmds[i + 1];
      assert (cmds + more)[i + 2] == cmds[i + 2] && (cmds + more)[i + 3] == cmds[i + 3];
    }
  }

  /** Appending a placeholder and recording its position keeps the relocations sound. */
  lemma RelocsOkAdd(cmds: seq<u16>, pos: seq<nat>, reg: u16)
    requires RelocsOk(cmds, pos)
    ensures RelocsOk(cmds + Placeholder(reg), pos + [2 * |cmds|])
  {
    var c2 := cmds + Placeholder(reg);
    var p2 := pos + [2 * |cmds|];
    RelocsOkExtend(cmds, pos, Placeholder(reg));
    assert c2[|cmds|] == reg && c2[|cmds| + 1] == 0 && c2[|cmds| + 2] == (reg as int + 2) % 0x1_0000 && c2[|cmds| + 3] == 0;
    assert PlaceholderAt(c2, |cmds|);
    forall k | 0 <= k < |p2| ensures p2[k] % 2 == 0 && PlaceholderAt(c2, p2[k] / 2) {
      if k == |pos| {
        assert p2[k] / 2 == |cmds|;
      }
    }
    forall i, j | 0 <= i < j < |p2| ensures p2[i] + 8 <= p2[j] {
      if j == |pos| {
        assert PlaceholderAt(cmds, pos[i] / 2);
      }
    }
  }

  /**
   * A pending batch agrees with the submissions before it and with the history: all
   * batches are well formed, and the submitted entries and relocation handles followed
   * by the pending ones are exactly those emitted, nothing lost and nothing reordered.
   */
  ghost predicate Consistent(pending: Batch, log: seq<Submission>, emitted: seq<u16>, emittedObjs: seq<u32>)
  {
    WellFormed(pending) && (forall i :: 0 <= i < |log| ==> WellFormed(log[i].batch)) &&
    Flatten(log) + pending.cmds == emitted && FlattenObjs(log) + pending.objs == emittedObjs
  }

  /** Appending a register/value pair to the pending batch and to the history keeps them consistent. */
  lemma ConsistentPair(b: Batch, log: seq<Submission>, emitted: seq<u16>, emittedObjs: seq<u32>, reg: u16, val: u16)
    requires Consistent(b, log, emitted, emittedObjs)
    ensures Consistent(Batch(b.bufsz + 4, b.cmds + [reg, val], b.nobjs, b.objs, b.objPos),
      log, emitted + [reg, val], emittedObjs)
  {
    RelocsOkExtend(b.cmds, b.objPos, [reg, val]);
    assert Flatten(log) + (b.cmds + [reg, val]) == (Flatten(log) + b.cmds) + [reg, val];
  }

  /** Appending a relocation to the pending batch and to the history keeps them consistent. */
  lemma ConsistentRelocation(b: Batch, log: seq<Submission>, emitted: seq<u16>, emittedObjs: seq<u32>,
                             reg: u16, handle: u32)
    requires Consistent(b, log, emitted, emittedObjs)
    ensures Consistent(Batch(b.bufsz + 8, b.cmds + Placeholder(reg), b.nobjs + 1, b.objs + [handle],
      b.objPos + [2 * |b.cmds|]), log, emitted + Placeholder(reg), emittedObjs + [handle])
  {
    RelocsOkAdd(b.cmds, b.objPos, reg);
    assert Flatten(log) + (b.cmds + Placeholder(reg)) == (Flatten(log) + b.cmds) + Placeholder(reg);
    assert FlattenObjs(log) + (b.objs + [handle]) == (FlattenObjs(log) + b.objs) + [handle];
  }

  /** Submitting the pending batch and starting an empty one keeps the history consistent. */
  lemma ConsistentDispatch(b: Batch, log: seq<Submission>, emitted: seq<u16>, emittedObjs: seq<u32>, status: int)
    requires Consistent(b, log, emitted, emittedObjs)
    ensures Consistent(Batch(0, [], 0, [], []), log + [Submission(b, status)], emitted, emittedObjs)
  {
    var log2 := log + [Submission(b, status)];
    assert log2[..|log2| - 1] == log;
  }

  /** The cmdq_* fields of the driver record and the history of what was emitted and submitted. */
  class DrmQueue {
    const cmdqDrm: array<u16>
    const cmdqDrmSize: nat
    const cmdqObjs: array<u32>
    const cmdqObjPos: array<u32>
    var cmdqDrmUsed: nat
    var cmdqObjUsed: nat
    var lastBufferObject: Option<Bo>
    /** The counter the debug END_CMDQ of glamo-drm-cmdq.h adds to; no other code reads it. */
    var cmdqObjsUsed: int
    /** Every batch handed to the kernel, in order. */
    ghost var log: seq<Submission>
    /** Every entry ever added, in order. */
    ghost var emitted: seq<u16>
    /** Every relocation handle ever recorded, in order. */
    ghost var emittedObjs: seq<u32>

    /** The batch a dispatch would hand to the kernel now. */
    ghost function Pending(): Batch
      reads this, cmdqDrm, cmdqObjs, cmdqObjPos
      requires cmdqDrmUsed <= cmdqDrm.Length && cmdqObjUsed <= cmdqObjs.Length && cmdqObjUsed <= cmdqObjPos.Length
    {
      Batch(2 * cmdqDrmUsed, cmdqDrm[..cmdqDrmUsed], cmdqObjUsed, cmdqObjs[..cmdqObjUsed], cmdqObjPos[..cmdqObjUsed])
    }

    /**
     * The buffers have GLAMO_CMDQ_MAX_COUNT entries, the entry count stays even and in
     * bounds, every batch is well formed, and the submitted entries followed by the
     * pending ones are exactly the entries emitted: nothing lost, nothing reordered.
     */
    ghost predicate Valid()
      reads this, cmdqDrm, cmdqObjs, cmdqObjPos
    {
      cmdqDrm.Length == GLAMO_CMDQ_MAX_COUNT && cmdqObjs.Length == GLAMO_CMDQ_MAX_COUNT &&
      cmdqObjPos.Length == GLAMO_CMDQ_MAX_COUNT && cmdqObjs != cmdqObjPos &&
      cmdqDrmSize == 2 * GLAMO_CMDQ_MAX_COUNT &&
      cmdqDrmUsed <= GLAMO_CMDQ_MAX_COUNT && cmdqDrmUsed % 2 == 0 && 4 * cmdqObjUsed <= cmdqDrmUsed &&
      WellFormed(Pending()) &&
      (forall i :: 0 <= i < |log| ==> WellFormed(log[i].batch)) &&
      Flatten(log) + cmdqDrm[..cmdqDrmUsed] == emitted &&
      FlattenObjs(log) + cmdqObjs[..cmdqObjUsed] == emittedObjs
    }

    /** GlamoDRMInit: the three buffers, both counters 0, cmdq_drm_size = 2 * GLAMO_CMDQ_MAX_COUNT bytes. */
    constructor Init()
      ensures Valid() && fresh(cmdqDrm) && fresh(cmdqObjs) && fresh(cmdqObjPos)
      ensures cmdqDrmUsed == 0 && cmdqObjUsed == 0
      ensures cmdqDrmSize == 2 * GLAMO_CMDQ_MAX_COUNT && 2 * cmdqDrm.Length == cmdqDrmSize
      ensures lastBufferObject == None && cmdqObjsUsed == 0 && log == [] && emitted == [] && emittedObjs == []
    {
      cmdqObjs := new u32[GLAMO_CMDQ_MAX_COUNT];
      cmdqObjPos := new u32[GLAMO_CMDQ_MAX_COUNT];
      cmdqDrmSize := 2 * GLAMO_CMDQ_MAX_COUNT;
      cmdqDrm := new u16[GLAMO_CMDQ_MAX_COUNT];
      cmdqObjUsed := 0;
      cmdqDrmUsed := 0;
      lastBufferObject := None;
      cmdqObjsUsed := 0;
      log := [];
      emitted := [];
      emittedObjs := [];
    }

    /**
     * GlamoDRMDispatch: submit 2*used bytes and every relocation, whatever the kernel
     * answers (`status` is its return value), then reset both counters.
     */
    method Dispatch(status: int)
      requires Valid()
      modifies this`log, this`cmdqDrmUsed, this`cmdqObjUsed
      ensures Valid()
      ensures log == old(log) + [Submission(old(Pending()), status)]
      ensures cmdqDrmUsed == 0 && cmdqObjUsed == 0
      ensures emitted == old(emitted) && lastBufferObject == old(lastBufferObject)
    {
      log := log + [Submission(Pending(), status)];
      cmdqObjUsed := 0;
      cmdqDrmUsed := 0;
    }

    /** cmdq_drm[cmdq_drm_used++] = v */
    method Push(v: u16)
      requires cmdqDrmUsed < cmdqDrm.Length
      modifies this`cmdqDrmUsed, this`emitted, cmdqDrm
      ensures cmdqDrmUsed == old(cmdqDrmUsed) + 1
      ensures cmdqDrm[..] == old(cmdqDrm[..])[old(cmdqDrmUsed) := v]
      ensures cmdqDrm[..cmdqDrmUsed] == old(cmdqDrm[..cmdqDrmUsed]) + [v]
      ensures emitted == old(emitted) + [v]
    {
      cmdqDrm[cmdqDrmUsed] := v;
      cmdqDrmUsed := cmdqDrmUsed + 1;
      emitted := emitted + [v];
    }

    /** cmdq_objs[cmdq_obj_used] = handle; cmdq_obj_pos[cmdq_obj_used] = pos; cmdq_obj_used++ */
    method Record(handle: u32, pos: u32)
      requires cmdqObjUsed < cmdqObjs.Length && cmdqObjUsed < cmdqObjPos.Length && cmdqObjs != cmdqObjPos
      modifies this`cmdqObjUsed, this`emittedObjs, cmdqObjs, cmdqObjPos
      ensures cmdqObjUsed == old(cmdqObjUsed) + 1
      ensures cmdqObjs[..] == old(cmdqObjs[..])[old(cmdqObjUsed) := handle]
      ensures cmdqObjPos[..] == old(cmdqObjPos[..])[old(cmdqObjUsed) := pos]
      ensures cmdqObjs[..cmdqObjUsed] == old(cmdqObjs[..cmdqObjUsed]) + [handle]
      ensures cmdqObjPos[..cmdqObjUsed] == old(cmdqObjPos[..cmdqObjUsed]) + [pos]
      ensures emittedObjs == old(emittedObjs) + [handle]
    {
      cmdqObjs[cmdqObjUsed] := handle;
      cmdqObjPos[cmdqObjUsed] := pos;
      cmdqObjUsed := cmdqObjUsed + 1;
      emittedObjs := emittedObjs + [handle];
    }

    /** GlamoDRMAddCommand: a forced dispatch when fewer than three entries are free, then reg and val. */
    method AddCommand(reg: u16, val: u16, status: int)
      requires Valid()
      modifies this`log, this`cmdqDrmUsed, this`cmdqObjUsed, this`emitted, cmdqDrm
      ensures Valid()
      ensures var flush := old(cmdqDrmUsed) >= GLAMO_CMDQ_MAX_COUNT - 2;
        var at := if flush then 0 else old(cmdqDrmUsed);
        log == (if flush then old(log) + [Submission(old(Pending()), status)] else old(log)) &&
        cmdqDrm[..] == old(cmdqDrm[..])[at := reg][at + 1 := val] &&
        cmdqDrmUsed == at + 2 &&
        cmdqObjUsed == (if flush then 0 else old(cmdqObjUsed)) &&
        lastBufferObject == old(lastBufferObject) &&
        emitted == old(emitted) + [reg, val]
    {
      if cmdqDrmUsed >= GLAMO_CMDQ_MAX_COUNT - 2 {
        Dispatch(status);
      }
      AppendPair(reg, val);
    }

    /** Lines 72-73 of AddCommand, once room is guaranteed. */
    method AppendPair(reg: u16, val: u16)
      requires Valid() && cmdqDrmUsed + 2 <= GLAMO_CMDQ_MAX_COUNT
      modifies this`cmdqDrmUsed, this`emitted, cmdqDrm
      ensures Valid()
      ensures log == old(log) && cmdqObjUsed == old(cmdqObjUsed) && lastBufferObject == old(lastBufferObject)
      ensures cmdqDrmUsed == old(cmdqDrmUsed) + 2
      ensures cmdqDrm[..] == old(cmdqDrm[..])[old(cmdqDrmUsed) := reg][old(cmdqDrmUsed) + 1 := val]
      ensures emitted == old(emitted) + [reg, val]
    {
      ghost var pending := Pending();
      Push(reg);
      Push(val);
      assert cmdqDrm[..cmdqDrmUsed] == pending.cmds + [reg, val];
      RelocsOkExtend(pending.cmds, pending.objPos, [reg, val]);
      assert Pending() == Batch(pending.bufsz + 4, pending.cmds + [reg, val], pending.nobjs,
        pending.objs, pending.objPos);
      assert Flatten(log) + cmdqDrm[..cmdqDrmUsed] == (Flatten(log) + pending.cmds) + [reg, val];
    }

    /**
     * GlamoDRMAddCommandBO: a forced dispatch when fewer than five entries or no
     * relocation slot are free, then the handle, the byte position of the placeholder
     * and the placeholder itself; the object becomes last_buffer_object.
     */
    method AddCommandBO(reg: u16, bo: Bo, status: int)
      requires Valid()
      modifies this`log, this`cmdqDrmUsed, this`cmdqObjUsed, this`emitted, this`emittedObjs, this`lastBufferObject
      modifies cmdqDrm, cmdqObjs, cmdqObjPos
      ensures Valid()
      ensures var flush := old(cmdqDrmUsed) >= GLAMO_CMDQ_MAX_COUNT - 4 || old(cmdqObjUsed) >= GLAMO_CMDQ_MAX_COUNT;
        var at := if flush then 0 else old(cmdqDrmUsed);
        var k := if flush then 0 else old(cmdqObjUsed);
        log == (if flush then old(log) + [Submission(old(Pending()), status)] else old(log)) &&
        cmdqObjs[..] == old(cmdqObjs[..])[k := bo.handle] &&
        cmdqObjPos[..] == old(cmdqObjPos[..])[k := 2 * at] &&
        cmdqObjUsed == k + 1 &&
        cmdqDrm[..] == old(cmdqDrm[..])[at := reg][at + 1 := 0][at + 2 := Placeholder(reg)[2]][at + 3 := 0] &&
        cmdqDrmUsed == at + 4 &&
        lastBufferObject == Some(bo) &&
        emitted == old(emitted) + Placeholder(reg) &&
        emittedObjs == old(emittedObjs) + [bo.handle]
    {
      if cmdqDrmUsed >= GLAMO_CMDQ_MAX_COUNT - 4 || cmdqObjUsed >= GLAMO_CMDQ_MAX_COUNT {
        Dispatch(status);
      }
      AppendRelocation(reg, bo);
    }

    /** The stores of lines 86-98. */
    method WriteRelocation(reg: u16, bo: Bo)
      requires cmdqDrmUsed + 4 <= cmdqDrm.Length && cmdqObjUsed < cmdqObjs.Length
      requires cmdqObjUsed < cmdqObjPos.Length && cmdqObjs != cmdqObjPos && 2 * cmdqDrmUsed < 0x1_0000_0000
      modifies this`cmdqDrmUsed, this`cmdqObjUsed, this`emitted, this`emittedObjs, this`lastBufferObject
      modifies cmdqDrm, cmdqObjs, cmdqObjPos
      ensures cmdqObjUsed == old(cmdqObjUsed) + 1 && cmdqDrmUsed == old(cmdqDrmUsed) + 4
      ensures cmdqObjs[..] == old(cmdqObjs[..])[old(cmdqObjUsed) := bo.handle]
      ensures cmdqObjPos[..] == old(cmdqObjPos[..])[old(cmdqObjUsed) := 2 * old(cmdqDrmUsed)]
      ensures cmdqObjs[..cmdqObjUsed] == old(cmdqObjs[..cmdqObjUsed]) + [bo.handle]
      ensures cmdqObjPos[..cmdqObjUsed] == old(cmdqObjPos[..cmdqObjUsed]) + [2 * old(cmdqDrmUsed)]
      ensures cmdqObjUsed == old(cmdqObjUsed) + 1
      ensures var at := old(cmdqDrmUsed);
        cmdqDrm[..] == old(cmdqDrm[..])[at := reg][at + 1 := 0][at + 2 := Placeholder(reg)[2]][at + 3 := 0]
      ensures cmdqDrm[..cmdqDrmUsed] == old(cmdqDrm[..cmdqDrmUsed]) + Placeholder(reg)
      ensures cmdqDrmUsed == old(cmdqDrmUsed) + 4
      ensures lastBufferObject == Some(bo)
      ensures emitted == old(emitted) + Placeholder(reg)
      ensures emittedObjs == old(emittedObjs) + [bo.handle]
    {
      Record(bo.handle, cmdqDrmUsed * 2);
      ghost var before := cmdqDrm[..cmdqDrmUsed];
      Push(reg);
      Push(0);
      Push((reg + 2) % 0x1_0000);
      Push(0);
      lastBufferObject := Some(bo);
      assert cmdqDrm[..cmdqDrmUsed] == before + Placeholder(reg);
    }

    /** Lines 86-98 of AddCommandBO, once room is guaranteed. */
    method AppendRelocation(reg: u16, bo: Bo)
      requires Valid() && cmdqDrmUsed + 4 <= GLAMO_CMDQ_MAX_COUNT && cmdqObjUsed < GLAMO_CMDQ_MAX_COUNT
      modifies this`cmdqDrmUsed, this`cmdqObjUsed, this`emitted, this`emittedObjs, this`lastBufferObject
      modifies cmdqDrm, cmdqObjs, cmdqObjPos
      ensures Valid()
      ensures log == old(log)
      ensures cmdqObjs[..] == old(cmdqObjs[..])[old(cmdqObjUsed) := bo.handle]
      ensures cmdqObjPos[..] == old(cmdqObjPos[..])[old(cmdqObjUsed) := 2 * old(cmdqDrmUsed)]
      ensures cmdqObjUsed == old(cmdqObjUsed) + 1
      ensures var at := old(cmdqDrmUsed);
        cmdqDrm[..] == old(cmdqDrm[..])[at := reg][at + 1 := 0][at + 2 := Placeholder(reg)[2]][at + 3 := 0]
      ensures cmdqDrmUsed == old(cmdqDrmUsed) + 4
      ensures lastBufferObject == Some(bo)
      ensures emitted == old(emitted) + Placeholder(reg)
      ensures emittedObjs == old(emittedObjs) + [bo.handle]
    {
      ghost var before := Pending();
      WriteRelocation(reg, bo);
      assert cmdqDrm[..cmdqDrmUsed] == before.cmds + Placeholder(reg);
      RelocsOkAdd(before.cmds, before.objPos, reg);
      assert Pending() == Batch(before.bufsz + 8, before.cmds + Placeholder(reg), before.nobjs + 1,
        before.objs + [bo.handle], before.objPos + [2 * |before.cmds|]);
      assert WellFormed(Pending());
      assert Flatten(log) + cmdqDrm[..cmdqDrmUsed] == (Flatten(log) + before.cmds) + Placeholder(reg);
      assert cmdqDrmUsed <= GLAMO_CMDQ_MAX_COUNT && cmdqDrmUsed % 2 == 0 && 4 * cmdqObjUsed <= cmdqDrmUsed;
      assert (forall i :: 0 <= i < |log| ==> WellFormed(log[i].batch));
      assert Flatten(log) + cmdqDrm[..cmdqDrmUsed] == emitted;
      assert FlattenObjs(log) + cmdqObjs[..cmdqObjUsed] == (FlattenObjs(log) + before.objs) + [bo.handle];
    }
  }

  /** Every relocation takes four entries, so the relocation limit of AddCommandBO never triggers a flush. */
  lemma ObjectLimitUnreached(q: DrmQueue)
    requires q.Valid()
    ensures 4 * q.cmdqObjUsed <= GLAMO_CMDQ_MAX_COUNT && q.cmdqObjUsed < GLAMO_CMDQ_MAX_COUNT
  {
  }

  /** A valid queue's pending relocations each name a placeholder in the pending entries. */
  lemma PendingRelocation(q: DrmQueue, k: nat)
    requires q.Valid() && k < q.cmdqObjUsed
    ensures var p := q.cmdqObjPos[k] as nat;
      p % 2 == 0 && p / 2 + 4 <= q.cmdqDrmUsed &&
      q.cmdqDrm[p / 2 + 1] == 0 && q.cmdqDrm[p / 2 + 3] == 0 &&
      q.cmdqDrm[p / 2 + 2] == (q.cmdqDrm[p / 2] as int + 2) % 0x1_0000
  {
    var b := q.Pending();
    var p := q.cmdqObjPos[k] as nat;
    assert b.objPos[k] == p;
    assert PlaceholderAt(b.cmds, p / 2);
  }

  /** The batches already submitted are a prefix of what was emitted. */
  lemma SubmittedPrefix(q: DrmQueue)
    requires q.Valid()
    ensures |Flatten(q.log)| + q.cmdqDrmUsed == |q.emitted|
    ensures Flatten(q.log) == q.emitted[..|Flatten(q.log)|]
  {
    assert q.emitted == Flatten(q.log) + q.cmdqDrm[..q.cmdqDrmUsed];
  }
}
