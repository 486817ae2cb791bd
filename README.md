# Glamo X driver: command path model

This project models the command path of the Xorg driver for the Smedia Glamo 3362
graphics chip (xf86-video-glamo). The driver turns 2D operations into 16-bit
register/value command words and hands them to the hardware. The model covers:

- **Ring dispatcher** (`Cmdq`, glamo-cmdq.c). `GLAMODispatchCMDQ` copies the staged
  command bytes into the 256 KiB command ring in video memory. It waits until the
  hardware read pointer is clear of the region it writes. When the write wraps it
  applies two fixups: the pointer is never left unchanged, and it is published as 0
  only for a full-ring payload written from `ring_len - 4`.
  It then publishes the new write pointer to two 16-bit registers with the 2D M6 clock
  gated off. This module also resets, initialises, enables and disables the ring.
- **Kernel-submission staging** (`Drm`, glamo-drm.c). Fixed arrays of 1024 command
  entries and 1024 relocations feed the kernel's command-buffer call. A forced dispatch
  happens before any append that could overflow. A ghost log of submitted batches
  carries "nothing lost, nothing reordered" across forced flushes.
- **The second copy of that staging** (`KmsExa`, glamo-kms-exa.c). It is used by the
  KMS EXA emitters and has a different flush rule.
- **Command macros** (`DrmCmdq`). These are the BEGIN/OUT/END macros of
  glamo-drm-cmdq.h in both the non-debug and the debug build.
- **Non-KMS EXA emitters** (`Draw`). They work on the ring staging buffer of
  glamo-draw.c: the fixed register programs, the 23-bit address split, the row loops
  of upload and download, and the init/enable/fini sequence.
- **Raster operations** (`Rop`). The two raster-operation tables are proved to be the
  truth tables of the 16 X11 GC functions.
- **2D register sequences** (`TwoD`). The register sequences shared by both back ends.
- **Engine controller** (`Engine`, glamo-engine.c). This is the busy table and the
  read-modify-write enable, disable and reset of the CMDQ, ISP and 2D engines over a
  register map. `MMIOSetBitMask` and the driver record live with it (`Glamo`,
  glamo.h).
- **Small conversions.** The fbdev to X mode and rotation conversion and the derived
  mode (`Output`). The rotation-dependent DRM timings (`KmsCrtc`). The colormap
  packing, once-only module setup, MMIO page arithmetic and the save/restore register
  masks (`Driver`).

Modelling conventions:

- **Integers.** All values are integers bounded by subset types (`u8`, `u16`, `u32`).
  Bitwise operators are defined in `Bits` on naturals and reasoned about bit by bit.
- **Registers.** Register offsets and clock bits come from glamo-regs.h, which is not
  part of this model. They are abstract constants, assumed distinct and non-zero
  where needed.
- **MMIO.** The register file is a map in class `Glamo.Mmio`, plus a ghost trace of
  every register write in order.
- **Memory.** The ring, the staging buffers and the framebuffer are byte arrays. A
  16-bit entry is stored little-endian (ARM).
- **Hardware reads.** Every value read from hardware by a polling loop becomes a
  parameter: the ring read pointer and the status word. The loop's exit condition
  becomes a precondition.
- **Foreign calls.** Every call into X, EXA, libdrm or the kernel becomes a parameter
  (an allocation that may fail, an open that may return no object). Alternatively it
  becomes a ghost record of what was handed over.

Behaviour of the code as written, modelled faithfully rather than corrected:

- The KMS staging buffer (glamo-kms-exa.c:150, 165) flushes only when the entry count
  equals `cmdq_drm_size` exactly. That field is the allocation's size in bytes (4096),
  while the count is in 16-bit entries, so the 2049th entry is already stored past the
  2048-entry allocation (`KmsExa.PairsOverrunAllocation`). A relocation added at count
  4094 jumps over the flush point, and after that no add ever flushes
  (`KmsExa.RelocationSkipsFlush`, `KmsExa.NoFlushPastSize`). The model therefore keeps
  the live entries as sequences and records the overrun in a ghost flag.
- `BEGIN_CMDQ` flushes through `GlamoDRMDispatch`. That call resets the kernel-staging
  counters, not `cmd_queue->used`, so the block may still not fit after the flush
  (`DrmCmdq.RingLocals.Begin`).
- The non-debug `END_CMDQ` never adds the block's objects to any count. The debug
  `END_CMDQ` adds them to `cmdq_objs_used`, which is a different field from the
  `cmdq_obj_used` that `GlamoDRMDispatch` submits. The object tables
  `__objs`/`__obj_pos` are `char *`, so only the low byte of a handle or position is
  stored (`DrmCmdq.RingLocals.OutRegBO`).
- `GlamoKMSExaModifyPixmapHeader` returns FALSE on every path, including after it
  creates the buffer object.
- The colormap mask 0xf700 drops bit 3 of red and keeps red bits 0-2 at bits 8-10,
  which overlap the green field. The entry equals the RGB 5-6-5 pixel exactly when red
  bit 3 is clear and each set red bit 0-2 lands on a green bit 5-7 that is already set
  (`Driver.ColorEntryIs565Iff`). So it equals the pixel when the four low red bits are
  clear (`Driver.ColorEntryIs565`), and never when red bit 3 is set
  (`Driver.ColorEntryNot565`).
- The two ring fixups can overwrite payload bytes when the write goes all the way
  round the ring (`Cmdq.FixupClobbers`). The second fixup's 4-byte zeroing runs past
  the end of the ring when the write pointer is `ring_len - 2` and the count is
  `ring_len`. That one case is excluded by `Cmdq.Dispatch`'s precondition
  (`Cmdq.FixupInRingIff`).
- After a wrap, the fixups raise the new write pointer to `ring_len` when a full-ring
  payload is written from `ring_len - 4` (src/glamo-cmdq.c:116-119). The masked
  WRITE_ADDRH/L registers then publish 0 (`Cmdq.FinalWriteFacts`).
- A failed open of /dev/mem (src/glamo-driver.c:217-223) returns before `reg_base` is
  assigned, so it stays NULL. `GlamoUnmapMMIO` then calls `munmap(0, 0x2400)`, because
  NULL is not MAP_FAILED (`Driver.UnmapMmioAfterMap`).
- `GlamoUnmapMMIO` computes `base_offset` as `page_base - reg_base`, the negative of
  the mapping offset. It therefore unmaps `length` minus the offset
  (`Driver.UnmapArgs`), which is the mapped length only when the base was
  page-aligned.
- The `cmdq_*` and `last_buffer_object` fields used by glamo-drm.c and
  glamo-kms-exa.c are not declared in `GlamoRec` (src/glamo.h:84-145). They are
  fields of the model's own classes `Drm.DrmQueue` and `KmsExa.KmsQueue`.

glamo-cmdq.h, which defines the ring macros glamo-draw.c uses, is not part of this
model. `Draw.RingLocals` gives those macros the shape of the glamo-drm-cmdq.h macros:
BEGIN dispatches the ring when the block does not fit, then OUT_REG writes at
`used + 2*count`, then END advances `used`. `FB_ROTATE_*` and `RR_Rotate_*` take the
values of linux/fb.h (0-3) and randr.h (1, 2, 4, 8). `MODE_OK` and `LDR_ONCEONLY`
are abstract.

## Model

| member | source | states |
|---|---|---|
| Glamo.BitMaskUpdateBit | src/glamo.h:149-161 | bit i of the register after MMIOSetBitMask is bit i of val where the mask has it, and the old bit elsewhere |
| Glamo.Idempotent | src/glamo.h:149-161 | applying the same mask and value twice equals applying it once |
| Glamo.LaterWins | src/glamo.h:149-161 | with the same mask, the second write's value wins |
| Glamo.DisjointCommute | src/glamo.h:149-161 | updates with disjoint masks commute |
| Glamo.SetAll | src/glamo.h:154-160 | val 0xffff sets every mask bit (old OR mask) |
| Glamo.ClearAll | src/glamo.h:154-160 | val 0 clears every mask bit (old AND NOT mask) |
| Glamo.RewriteSame | src/glamo.h:149-161 | writing back the register's own value changes nothing |
| Glamo.ClearThenSet | src/glamo.h:149-161 | clearing then setting a mask leaves old OR mask |
| Glamo.Mmio.constructor | src/glamo.h:71-72 | the register file starts with the given values and an empty write trace |
| Glamo.Mmio.Out16 | src/glamo.h:71 | MMIO_OUT16 sets exactly one register and appends that write to the trace |
| Glamo.Mmio.SetBitMask | src/glamo.h:149-161 | MMIOSetBitMask stores (old AND NOT mask) OR (val AND mask) in that register only, as one traced write |
| Glamo.MemBuf.constructor | src/glamo.h:78-82 | a staging buffer of the given size, zero-filled by the calloc, with used 0 |
| Glamo.LE16 | src/glamo-drm-cmdq.h:114-118 | a 16-bit entry is stored as two bytes, low byte first |
| Glamo.Encode | src/glamo-drm-cmdq.h:114-118 | a sequence of entries occupies twice as many bytes |
| Glamo.Decode | src/glamo-drm-cmdq.h:114-118 | bytes read back as half as many entries |
| Glamo.EncodeAppend | src/glamo-drm-cmdq.h:114-118 | encoding distributes over concatenation, so entries written one after another form the encoded block |
| Glamo.DecodeEncode | src/glamo-drm-cmdq.h:114-118 | decoding the stored bytes gives back exactly the entries written |
| Glamo.Store16 | src/glamo-drm-cmdq.h:116 | storing one entry changes exactly its two bytes |
| Glamo.MemCpy | src/glamo-cmdq.c:104-105 | memcpy replaces exactly the n destination bytes at the offset by the source bytes |
| Glamo.Zeroed | src/glamo-cmdq.c:111 | zeroing keeps the length of the buffer |
| Glamo.ZeroedAt | src/glamo-cmdq.c:111 | after zeroing, bytes inside the range are 0 and all others are unchanged |
| Glamo.MemSet | src/glamo-cmdq.c:147 | memset with 0 produces the zeroed buffer |
| Glamo.ExaDriver.constructor | src/glamo-draw.c:240 | a freshly allocated EXA record has every field zero |
| Glamo.GlamoRec.constructor | src/glamo.h:84-145 | a freshly allocated driver record has null pointers, zero sizes and saved values, and an empty submission history |
| Cmdq.MaskValues | src/glamo-cmdq.c:36-39 | ring_len = (CQ_LEN+1)*1024 = 2^18, CQ_MASK = ring_len-1, CQ_MASKL = its low 16 bits, CQ_MASKH = its high 2 bits |
| Cmdq.NewRingWriteValue | src/glamo-cmdq.c:86 | new_ring_write is ((w+count) mod ring_len) rounded up to even |
| Cmdq.NewRingWriteEven | src/glamo-cmdq.c:86 | for even w and count, new_ring_write equals (w+count) mod ring_len and is even and below ring_len |
| Cmdq.RingPosMod | src/glamo-cmdq.c:101-122 | payload byte i goes to ring position (w+i) mod ring_len |
| Cmdq.WrapIff | src/glamo-cmdq.c:86-102 | the wrap branch is taken (new <= w) exactly when w+count reaches the ring end |
| Cmdq.RingReadValue | src/glamo-cmdq.c:91-92 | the read pointer assembled from the two masked registers is (high mod 4)<<16 plus low, so it lies inside the ring |
| Cmdq.Readback | src/glamo-cmdq.c:130-133 | the published pointer read back as at lines 84-85 equals new AND CQ_MASK, i.e. new mod ring_len |
| Cmdq.WaitDoneMeaning | src/glamo-cmdq.c:89-99 | both wait loops exit exactly when the read pointer is not strictly inside the region from w to new |
| Cmdq.WaitGuardsPayload | src/glamo-cmdq.c:89-99 | on exit the read pointer is not strictly inside the count bytes about to be written |
| Cmdq.Placed | src/glamo-cmdq.c:101-122 | placing the payload keeps the ring length |
| Cmdq.Zero4 | src/glamo-cmdq.c:110-118 | the 4-byte fixup zeroing keeps the ring length |
| Cmdq.DispatchRing | src/glamo-cmdq.c:101-122 | the ring after the copy and fixups keeps its length |
| Cmdq.DispatchRingAt | src/glamo-cmdq.c:101-122 | each ring byte after dispatch is 0 if a fixup zeroed it, else the payload byte at its offset from w, else its old value |
| Cmdq.PayloadIntact | src/glamo-cmdq.c:101-122 | outside the full-round cases, every payload byte i is found at (w+i) mod ring_len after dispatch |
| Cmdq.FixupClobbers | src/glamo-cmdq.c:107-119 | when the write goes all the way round, a fixup zeroes the first payload byte at w |
| Cmdq.FixupInRingIff | src/glamo-cmdq.c:116-119 | the second fixup stays inside the ring except when w = ring_len-2 and count = ring_len |
| Cmdq.FinalWriteFacts | src/glamo-cmdq.c:107-119 | the new write pointer is even; it is w+count when no wrap; after a wrap the unmasked value is neither 0 nor w; the masked value published to the registers is never w, and is 0 exactly when w = ring_len-4 and count = ring_len |
| Cmdq.OnePartCopyPlaced | src/glamo-cmdq.c:121 | the single memcpy places the payload at w |
| Cmdq.TwoPartCopyPlaced | src/glamo-cmdq.c:103-105 | the tail copy to the ring end plus the head copy from 0 place the payload modulo ring_len |
| Cmdq.CopyIn | src/glamo-cmdq.c:101-122 | the ring becomes the dispatched ring and the returned pointer is the fixed-up final write pointer |
| Cmdq.CopyAround | src/glamo-cmdq.c:103-105 | the two memcpys of the wrap branch place the payload modulo ring_len |
| Cmdq.CopyWrapped | src/glamo-cmdq.c:102-119 | the wrap branch's copies and fixups give the dispatched ring and final pointer |
| Cmdq.Publish | src/glamo-cmdq.c:126-137 | M6 clock cleared, then WRITE_ADDRH = (new>>16)&CQ_MASKH, then WRITE_ADDRL = new&CQ_MASKL, then M6 clock set, in that order |
| Cmdq.Dispatch | src/glamo-cmdq.c:65-139 | empty staging changes nothing; otherwise the ring, registers and trace are the dispatch effect of the staged bytes, the bytes are recorded as submitted, and used becomes 0 |
| Cmdq.BaseSplit | src/glamo-cmdq.c:151-154 | BASE_ADDRH<<16 OR BASE_ADDRL gives back ring_start mod 2^23 |
| Cmdq.ControlValue | src/glamo-cmdq.c:161-164 | the control word is 1<<12 OR 5<<8 OR 8<<4 |
| Cmdq.ProgramQueue | src/glamo-cmdq.c:151-164 | base, length, the four pointer registers and control are written in source order and nothing else changes |
| Cmdq.ResetCP | src/glamo-cmdq.c:141-166 | the ring is zeroed, the CMDQ reset bit pulses, the queue registers are programmed, and the write pointer reads 0 |
| Cmdq.Init | src/glamo-cmdq.c:168-191 | records ring start, address and length 2^18; a successful allocation gives an empty staging buffer of ring_len bytes and returns ring_len, a failed one returns 0 |
| Cmdq.Enable | src/glamo-cmdq.c:193-201 | enables the CMDQ engine's bit groups, then resets the CP; returns TRUE |
| Cmdq.Disable | src/glamo-cmdq.c:203-209 | clears the CMDQ engine's disable groups |
| Cmdq.Fini | src/glamo-cmdq.c:211-221 | disables the CMDQ and drops the staging buffer |
| Drm.Placeholder | src/glamo-drm.c:93-96 | a relocation placeholder is reg, 0, reg+2 (16-bit wrap), 0 |
| Drm.PlaceholderAtSlice | src/glamo-drm.c:93-96 | a placeholder at index i means the four entries from i are the placeholder of entry i |
| Drm.RelocsOkExtend | src/glamo-drm.c:71-73 | appending entries keeps every recorded relocation pointing at its placeholder |
| Drm.RelocsOkAdd | src/glamo-drm.c:86-96 | recording byte position 2*used before appending the placeholder keeps every relocation valid |
| Drm.ConsistentPair | src/glamo-drm.c:71-73 | appending a pair keeps submitted-then-pending equal to everything emitted |
| Drm.ConsistentRelocation | src/glamo-drm.c:86-96 | appending a relocation keeps the entry and object histories consistent |
| Drm.ConsistentDispatch | src/glamo-drm.c:39-60 | submitting the pending batch and emptying it keeps the histories consistent |
| Drm.DrmQueue.Init | src/glamo-drm.c:102-113 | both counters 0 and cmdq_drm_size = 2*GLAMO_CMDQ_MAX_COUNT bytes, which is the entry array's byte size |
| Drm.DrmQueue.Dispatch | src/glamo-drm.c:39-60 | the batch (2*used bytes, obj_used objects) is logged whatever the kernel returns, and both counters become 0 |
| Drm.DrmQueue.Push | src/glamo-drm.c:72 | one entry is written at index used and used grows by one |
| Drm.DrmQueue.Record | src/glamo-drm.c:87-90 | handle and position are written at index obj_used and obj_used grows by one |
| Drm.DrmQueue.AddCommand | src/glamo-drm.c:63-74 | dispatches first exactly when used >= MAX-2, then writes reg and val at the (possibly reset) used index |
| Drm.DrmQueue.AppendPair | src/glamo-drm.c:71-73 | reg and val land at used and used+1 |
| Drm.DrmQueue.AddCommandBO | src/glamo-drm.c:77-99 | dispatches first exactly when used >= MAX-4 or obj_used >= MAX, records handle and 2*used, appends the placeholder, and sets last_buffer_object |
| Drm.DrmQueue.WriteRelocation | src/glamo-drm.c:86-98 | handle, byte position 2*used and the placeholder are written at the current counts |
| Drm.DrmQueue.AppendRelocation | src/glamo-drm.c:86-98 | the relocation append keeps the queue invariant and writes the handle, position and placeholder |
| Drm.ObjectLimitUnreached | src/glamo-drm.c:79-80 | in reachable states obj_used <= MAX/4, so the object-count flush test never fires |
| Drm.PendingRelocation | src/glamo-drm.c:87-96 | every recorded position p is even, p/2+4 <= used, and entries p/2+1 and p/2+3 are 0 while p/2+2 is entry p/2 plus 2 |
| Drm.SubmittedPrefix | src/glamo-drm.c:39-96 | across forced flushes the submitted entries are a prefix of everything emitted, and the live buffer holds the rest |
| DrmCmdq.BurstOkSnoc | src/glamo-drm-cmdq.h:94-110 | a further OUT_BURST_REG passes the debug checks exactly when it names start+2k and fewer than n have been written |
| DrmCmdq.BurstHeader | src/glamo-drm-cmdq.h:58-61 | the burst header is (1<<15) OR reg |
| DrmCmdq.RingLocals.constructor | src/glamo-drm-cmdq.h:33-34 | the block locals start with count and objects 0 and no abort |
| DrmCmdq.RingLocals.Begin | src/glamo-drm-cmdq.h:36-48 | dispatches the kernel staging exactly when used+2n > size, leaves cmd_queue->used unchanged, and sets head, count 0, objects 0 and the object bases |
| DrmCmdq.RingLocals.StartBlock | src/glamo-drm-cmdq.h:42-47 | head = data+used, count = objects = 0, objs/obj_pos at 2*cmdq_obj_used; in debug builds total = n and reg = packet0count = 0 |
| DrmCmdq.RingLocals.Out | src/glamo-drm-cmdq.h:54-56 | one entry is written at head[count] and count grows by one |
| DrmCmdq.RingLocals.OutPair | src/glamo-drm-cmdq.h:114-122 | v1 and v2 land at head[count] and head[count+1] and count grows by two |
| DrmCmdq.RingLocals.OutRegBO | src/glamo-drm-cmdq.h:124-129 | the handle's and count's low bytes are recorded, then reg, 0, reg+2, 0 are written and count grows by four; other bytes are unchanged |
| DrmCmdq.RingLocals.RecordObject | src/glamo-drm-cmdq.h:124-125 | the handle and the position count (taken before the write) are stored as low bytes at index objects, which grows by one |
| DrmCmdq.RingLocals.OutBurst | src/glamo-drm-cmdq.h:105-110 | writes (1<<15)\|reg and n; the debug build arms the register check with reg and n |
| DrmCmdq.RingLocals.OutBurstReg | src/glamo-drm-cmdq.h:94-103 | debug: fatal exactly when the register is out of order or past n; non-debug: one value entry written, no check |
| DrmCmdq.RingLocals.End | src/glamo-drm-cmdq.h:86-92 | debug: fatal exactly when count != total; used grows by 2*count; only the debug build adds objects, to cmdq_objs_used; the block's bytes encode the entries written |
| Engine.BusyAllIsBit2 | src/glamo-engine.c:217-226 | Busy(ALL) depends only on status bit 2 |
| Engine.BusyCmdqBits | src/glamo-engine.c:205-208 | CMDQ is busy unless status bits 0 and 1 are both set |
| Engine.BusyIspBits | src/glamo-engine.c:209-212 | ISP is busy unless bits 0 and 1 are set and bit 8 is clear |
| Engine.Busy2DBits | src/glamo-engine.c:213-216 | 2D is busy unless bits 0 and 1 are set and bit 4 is clear |
| Engine.WaitDoneIffNotBusy | src/glamo-engine.c:239-262 | Wait's loop exits exactly when Busy would report not busy for the same status |
| Engine.ApplyGroups | src/glamo-engine.c:89-126 | a series of bit-mask updates is defined on every register |
| Engine.ApplyGroupsUntouched | src/glamo-engine.c:89-126 | registers not named in the groups are unchanged |
| Engine.ApplyGroupsNamed | src/glamo-engine.c:89-126 | a register named once receives exactly its mask update |
| Engine.GroupsDistinct | src/glamo-engine.c:89-187 | no register is named twice in an engine's enable or disable groups |
| Engine.EnableDisableSameBits | src/glamo-engine.c:98-187 | for ISP and 2D, Enable sets exactly the groups that Disable clears, so Disable after Enable equals Disable alone |
| Engine.ReapplyWins | src/glamo-engine.c:89-187 | re-applying the same groups with another value leaves only the later value |
| Engine.CmdqMclkStaysSet | src/glamo-engine.c:90-158 | Disable(CMDQ) leaves GEN5_1 untouched, so the EN_DIV_MCLK bit set by Enable(CMDQ) stays set |
| Engine.ResetNetEffect | src/glamo-engine.c:68-70 | setting then clearing the reset bit leaves old AND NOT bit |
| Engine.Reset | src/glamo-engine.c:35-73 | with no mapping, or for MPEG/ALL, nothing changes; otherwise the reset bit is written set and then clear, and only that register ends with that bit cleared |
| Engine.ApplyGroupsSnoc | src/glamo-engine.c:89-126 | one more group is one more register update and one more traced write |
| Engine.SetGroup | src/glamo-engine.c:94-126 | one MMIOSetBitMask extends the applied groups by one |
| Engine.Disable | src/glamo-engine.c:75-131 | with a mapping, the register file is the disable groups applied with 0, written in order; MPEG/ALL have none |
| Engine.Enable | src/glamo-engine.c:133-192 | with a mapping, the register file is the enable groups applied with 0xffff, written in order; MPEG/ALL have none |
| Rop.GcFunctionCode | src/glamo-draw.c:36-53 | GC function alu maps (src, dst) to bit (src?0:2)+(dst?0:1) of alu |
| Rop.SolidMasks | src/glamo-draw.c:36-53 | the truth table over pattern 0xF0 and destination 0xAA is the sum of the four minterm masks alu selects |
| Rop.BltMasks | src/glamo-draw.c:55-72 | the truth table over source 0xCC and destination 0xAA is the sum of the four minterm masks alu selects |
| Rop.TruthTableBit | src/glamo-draw.c:36-72 | bit i of a truth table is the GC function of bit i of source and destination |
| Rop.SolidRopCodes | src/glamo-draw.c:36-53 | each solid table entry is the sum of the minterm masks of its GC function |
| Rop.BltRopCodes | src/glamo-draw.c:55-72 | each blit table entry is the sum of the minterm masks of its GC function |
| Rop.SolidRopTruth | src/glamo-draw.c:36-53 | GLAMOSolidRop[alu] is GC function alu applied to 0xF0 and 0xAA (the copy at src/glamo-kms-exa.c:82-99 is the same table) |
| Rop.BltRopTruth | src/glamo-draw.c:55-72 | GLAMOBltRop[alu] is GC function alu applied to 0xCC and 0xAA (the copy at src/glamo-kms-exa.c:102-119 is the same table) |
| Rop.SolidRopBit | src/glamo-kms-exa.c:82-99 | every bit of a solid entry is the GC function of the pattern and destination bits |
| Rop.BltRopBit | src/glamo-kms-exa.c:102-119 | every bit of a blit entry is the GC function of the source and destination bits |
| Rop.OpWord | src/glamo-draw.c:317 | op = ROP<<8: the high byte is the table entry and the low byte is 0 |
| TwoD.Pitch11 | src/glamo-draw.c:324 | the pitch entry is devKind truncated to CARD16 and masked with 0x7ff, which equals devKind mod 2^11 |
| TwoD.SolidRect | src/glamo-draw.c:343-349 | the Solid block is 10 entries (5 pairs) |
| TwoD.CopyRect | src/glamo-draw.c:430-439 | the Copy block is 14 entries (7 pairs) |
| TwoD.OpTail | src/glamo-draw.c:327-329 | COMMAND2 = op, ID1 = 0, ID2 = 0 |
| TwoD.SolidSetup | src/glamo-kms-exa.c:221-226 | DST_PITCH, DST_HEIGHT, PAT_FG, COMMAND2, ID1, ID2 with pitch, height, fg, op, 0, 0 |
| TwoD.SolidSetupPairs | src/glamo-kms-exa.c:221-226 | the six AddCommand pairs in order form the solid set-up |
| TwoD.ProgramAppend | src/glamo-draw.c:321-330 | register programs concatenate |
| TwoD.SolidRectPairs | src/glamo-kms-exa.c:237-241 | Solid's five pairs in order form the solid rectangle block |
| TwoD.CopyRectPairs | src/glamo-kms-exa.c:309-315 | Copy's seven pairs in order form the copy rectangle block |
| TwoD.SolidRectProgram | src/glamo-kms-exa.c:232-242 | Solid writes DST_X, DST_Y, RECT_WIDTH = x2-x1, RECT_HEIGHT = y2-y1, COMMAND3, in that order |
| TwoD.CopyRectProgram | src/glamo-kms-exa.c:303-316 | Copy writes SRC_X, SRC_Y, DST_X, DST_Y, WIDTH, HEIGHT, COMMAND3, in that order |
| TwoD.PixmapPriv.constructor | src/glamo-kms-exa.c:77-79 | a pixmap private holds the given buffer object |
| TwoD.Pixmap.constructor | src/glamo-draw.c:296-316 | a pixmap holds the given drawable fields and private |
| TwoD.PlanemaskFull | src/glamo-draw.c:313-316 | (pm AND FbFullMask(16)) == mask exactly when the low 16 bits of pm are all set |
| Draw.U32Low23 | src/glamo-draw.c:322-323 | truncating the offset to CARD32 does not change its low 23 bits |
| Draw.AddressSplit | src/glamo-draw.c:322-323 | (ADDRH<<16) + ADDRL = offset mod 2^23 with ADDRH < 0x80 |
| Draw.SolidProgram | src/glamo-draw.c:321-330 | the PrepareSolid block writes DST_ADDRL, DST_ADDRH, DST_PITCH, DST_HEIGHT, PAT_FG, COMMAND2, ID1, ID2: 16 entries |
| Draw.SolidProgramPairs | src/glamo-draw.c:321-330 | the eight OUT_REG pairs in order form that program |
| Draw.CopyProgram | src/glamo-draw.c:398-411 | the PrepareCopy block writes source address and pitch, destination address, pitch and height, COMMAND2, ID1, ID2: 20 entries |
| Draw.CopySource | src/glamo-draw.c:399-401 | SRC_ADDRL, SRC_ADDRH and SRC_PITCH with the split source address |
| Draw.CopyDest | src/glamo-draw.c:402-406 | DST_ADDRL, DST_ADDRH, DST_PITCH and DST_HEIGHT with the split destination address |
| Draw.CopyProgramPairs | src/glamo-draw.c:398-411 | the ten OUT_REG pairs in order form that program |
| Draw.RingLocals.constructor | src/glamo-draw.c:321 | block locals with count 0 over the driver's staging buffer |
| Draw.RingLocals.Begin | src/glamo-draw.c:321 | dispatches the ring exactly when used+2n > size, after which the block fits |
| Draw.RingLocals.Out | src/glamo-draw.c:322 | one entry at used+2*count; count grows by one |
| Draw.RingLocals.OutReg | src/glamo-draw.c:322-329 | reg and value at used+2*count; count grows by two |
| Draw.RingLocals.End | src/glamo-draw.c:330 | used grows by 2*count, and the staged bytes are the earlier ones followed by this block's encoded entries |
| Draw.RingLocals.PrepareSolidBlock | src/glamo-draw.c:321-330 | stages exactly the 16 entries (32 bytes) of the solid program |
| Draw.RingLocals.SolidBlock | src/glamo-draw.c:343-349 | stages exactly the 10 entries of the solid rectangle |
| Draw.RingLocals.PrepareCopyBlock | src/glamo-draw.c:398-411 | stages exactly the 20 entries of the copy program |
| Draw.RingLocals.CopyBlock | src/glamo-draw.c:430-439 | stages exactly the 14 entries of the copy rectangle |
| Draw.EmitSolid | src/glamo-draw.c:321-330 | after a possible ring dispatch the staging buffer holds the earlier bytes then the solid program |
| Draw.PrepareSolid | src/glamo-draw.c:296-333 | FALSE with nothing staged exactly when bpp != 16 or the planemask lacks a low bit; otherwise stages the solid program with the split offset, pitch&0x7ff, height, fg and ROP<<8 |
| Draw.Solid | src/glamo-draw.c:335-350 | stages DST_X, DST_Y, width, height, COMMAND3 after the earlier bytes |
| Draw.EmitCopy | src/glamo-draw.c:398-411 | after a possible ring dispatch the staging buffer holds the earlier bytes then the copy program |
| Draw.PrepareCopy | src/glamo-draw.c:361-415 | FALSE with nothing staged on either fallback; otherwise stages the copy program with both split offsets and masked pitches |
| Draw.Copy | src/glamo-draw.c:417-440 | stages the seven copy-rectangle pairs after the earlier bytes |
| Draw.Done | src/glamo-draw.c:352-359 | DoneSolid and DoneCopy dispatch whatever is staged and leave used 0 |
| Draw.WaitMarker | src/glamo-draw.c:551-558 | wait-marker dispatches whatever is staged, then waits for the engines |
| Draw.CheckComposite | src/glamo-draw.c:451-458 | always FALSE |
| Draw.PrepareComposite | src/glamo-draw.c:460-470 | always FALSE |
| Draw.CopyRows | src/glamo-draw.c:512-516 | copying rows keeps the target's length |
| Draw.CopyRowsOutside | src/glamo-draw.c:512-516 | bytes outside every target row are unchanged |
| Draw.CopyRowsBefore | src/glamo-draw.c:512-516 | bytes before the first target row are unchanged |
| Draw.CopyRowsAt | src/glamo-draw.c:512-516 | byte j of target row i is byte j of source row i |
| Draw.RowCopy | src/glamo-draw.c:512-516 | the row loop, advancing both pointers by their pitches, performs the row copy |
| Draw.UploadToScreen | src/glamo-draw.c:490-519 | row i of w*bpp/8 bytes from src+i*src_pitch lands at the pixmap's pixel (x, y+i); returns TRUE |
| Draw.DownloadFromScreen | src/glamo-draw.c:521-549 | the mirror image: the pixmap's rows land in dst+i*dst_pitch; returns TRUE |
| Draw.ExaInit | src/glamo-draw.c:229-294 | success exactly when allocation and exaDriverInit succeed; then base fbstart, size mem_size+mem_start, off-screen base mem_start, alignments 2, max 640x640; on failure no EXA record |
| Draw.DrawFini | src/glamo-draw.c:193-203 | disables the CMDQ, frees the staging buffer and the EXA record |
| Draw.DrawInit | src/glamo-draw.c:175-191 | returns mem_size when every step succeeds and 0 otherwise; EXA receives mem_start+ring_len onward |
| Draw.DrawEnable | src/glamo-draw.c:205-219 | 2D enabled, 2D reset, CMDQ enabled and reset, queue programmed; returns TRUE |
| Draw.DrawDisable | src/glamo-draw.c:221-227 | CMDQ then 2D disable groups cleared |
| KmsExa.NoFlushPastSize | src/glamo-kms-exa.c:147-182 | once the count exceeds cmdq_drm_size no later add flushes |
| KmsExa.RelocationSkipsFlush | src/glamo-kms-exa.c:165-181 | a relocation at count size-2 jumps past the flush point, and no add flushes afterwards |
| KmsExa.Pairs | src/glamo-kms-exa.c:157-158 | k two-entry adds |
| KmsExa.PairsBelowSize | src/glamo-kms-exa.c:150-158 | pairs that stay at or below the flush point raise the count by two each without a flush |
| KmsExa.PairsOverrunAllocation | src/glamo-kms-exa.c:555-560 | from empty, the 1025th pair is stored beyond the 2048-entry allocation without a flush |
| KmsExa.KmsQueue.Init | src/glamo-kms-exa.c:554-560 | both counters 0 and cmdq_drm_size 4096, nothing emitted or submitted |
| KmsExa.KmsQueue.Dispatch | src/glamo-kms-exa.c:122-144 | the pending batch is logged whatever the kernel returns and both counters become 0 |
| KmsExa.KmsQueue.Push | src/glamo-kms-exa.c:157 | one entry appended at the count; overrun noted once the count passes the allocation |
| KmsExa.KmsQueue.AddCommand | src/glamo-kms-exa.c:147-159 | dispatches first exactly when used == cmdq_drm_size, then appends reg and val |
| KmsExa.KmsQueue.AppendPair | src/glamo-kms-exa.c:156-158 | reg and val appended after the live entries |
| KmsExa.KmsQueue.AddCommandBO | src/glamo-kms-exa.c:162-182 | dispatches first exactly when used == cmdq_drm_size, records the handle and 2*used, appends the placeholder |
| KmsExa.KmsQueue.Record | src/glamo-kms-exa.c:171-175 | handle and byte position appended; overrun noted past the 256-entry object allocations |
| KmsExa.KmsQueue.PushPlaceholder | src/glamo-kms-exa.c:178-181 | reg, 0, reg+2, 0 appended |
| KmsExa.KmsQueue.AppendRelocation | src/glamo-kms-exa.c:171-181 | records the relocation then appends its placeholder |
| KmsExa.CopySetup | src/glamo-kms-exa.c:288-297 | source relocation, SRC_PITCH, destination relocation, DST_PITCH, DST_HEIGHT, COMMAND2, ID1, ID2: 20 entries |
| KmsExa.CopySetupPairs | src/glamo-kms-exa.c:288-297 | the PrepareCopy adds in order form that set-up |
| KmsExa.PrepareSolid | src/glamo-kms-exa.c:199-229 | FALSE with nothing emitted exactly when bpp != 16 or the planemask lacks a low bit; otherwise the destination relocation then the solid set-up, with the BO's handle recorded |
| KmsExa.EmitSolidSetup | src/glamo-kms-exa.c:220-226 | emits the relocation and the six set-up pairs |
| KmsExa.Solid | src/glamo-kms-exa.c:232-242 | emits the solid rectangle pairs |
| KmsExa.PrepareCopy | src/glamo-kms-exa.c:255-300 | same fallbacks for either pixmap; otherwise the source relocation before the destination relocation, then the copy set-up |
| KmsExa.EmitCopySetup | src/glamo-kms-exa.c:288-297 | emits the copy set-up with the source handle recorded before the destination handle |
| KmsExa.Copy | src/glamo-kms-exa.c:303-316 | emits the copy rectangle pairs |
| KmsExa.Done | src/glamo-kms-exa.c:245-252 | DoneSolid and DoneCopy submit the pending batch and leave both counters 0 |
| KmsExa.DoneSubmitsAll | src/glamo-kms-exa.c:319-326 | after Done everything emitted, entries and objects, has been submitted in order |
| KmsExa.PixmapIsOffscreen | src/glamo-kms-exa.c:384-393 | TRUE exactly when the pixmap has a private and the private has a buffer object |
| KmsExa.PrepareAccess | src/glamo-kms-exa.c:384-423 | FALSE without private; TRUE without BO; FALSE on map failure; otherwise the pixmap points at the mapping, which happens exactly when the pixmap is off-screen (private and BO) |
| KmsExa.MiModifyPixmapHeader | src/glamo-kms-exa.c:465-466 | with no pixel data, each positive width, height, depth, bitsPerPixel and devKind replaces the pixmap's own, truncated to its field; the others stay |
| KmsExa.ModifyPixmapHeader | src/glamo-kms-exa.c:450-499 | non-positive arguments replaced by the drawable's; if width, height and depth are then positive the header takes them, a positive bpp and a positive devKind; fatal without private; a BO of w*h*d/8 bytes requested only when none exists; FALSE on every path |
| Output.FbClock | src/glamo-output.c:114 | Clock is 0 for pixclock 0 and otherwise the integer quotient of 10^9 by pixclock |
| Output.ConvertMode | src/glamo-output.c:108-124 | HDisplay = xres, VDisplay = yres, the sync and total fields built from the margins, so the timings are ordered; Flags = 0 |
| Output.ConvertModeDeterminedByFb | src/glamo-output.c:111-122 | the converted timings depend only on the fb_var |
| Output.ConvertRotation | src/glamo-output.c:126-141 | UR, CW, UD, CCW map to rotations 0, 90, 180, 270; any other value, or no pointer, leaves the rotation as it was |
| Output.ConvertRotationInjective | src/glamo-output.c:127-140 | distinct fb rotations map to distinct X rotations |
| Output.DerivedMode | src/glamo-output.c:190-208 | HDisplay and VDisplay doubled when VDisplay <= 320 and halved (truncating) otherwise; the H sync fields end up built from the V sync fields; V sync fields not assigned |
| Output.DerivedIgnoresHSync | src/glamo-output.c:191-193 | the first three stores of each branch are dead: the old H sync fields do not matter |
| Output.DerivedMargins | src/glamo-output.c:195-197 | the derived mode's horizontal margins are the base mode's vertical ones |
| Output.BuiltinModes | src/glamo-output.c:155-214 | no modes without the private or the first mode; one if the duplicate fails; else the preferred converted mode and the derived one |
| Output.PanelState | src/glamo-output.c:249-252 | "qvga-normal" exactly when the mode is 240x320, otherwise "normal" |
| Output.CommitWrite | src/glamo-output.c:243-260 | the state string with its terminating NUL is written exactly when the file opened |
| Output.BuiltinModesSelectBothStates | src/glamo-output.c:190-208 | the two built-in modes select different panel states |
| Output.Detect | src/glamo-output.c:217-220 | always connected |
| Output.ModeValid | src/glamo-output.c:222-226 | always MODE_OK |
| Output.ModeFixup | src/glamo-output.c:228-232 | always TRUE |
| KmsCrtc.Transpose | src/glamo-kms-crtc.c:136-144 | the quarter-turn swaps horizontal and vertical margins |
| KmsCrtc.TransposeTwice | src/glamo-kms-crtc.c:136-144 | swapping twice gives back the original timings |
| KmsCrtc.RotatedTimings | src/glamo-kms-crtc.c:126-159 | 90 and 270 program the swapped timings; 0, 180 and any other rotation program the unrotated ones |
| KmsCrtc.ModeSetTimings | src/glamo-kms-crtc.c:234-246 | DRM fields copy the mode's timings, clock times 1000 and flags; they read back as the mode when the timings fit 16 bits |
| KmsCrtc.QuarterTurnSwaps | src/glamo-kms-crtc.c:136-144 | for 90 and 270 the h-fields come from V* and the v-fields from H* |
| KmsCrtc.OtherRotationsUnrotated | src/glamo-kms-crtc.c:145-155 | an unrecognised rotation gives the same timings as rotation 0 |
| KmsCrtc.RotationKeepsFlags | src/glamo-kms-crtc.c:156-158 | clock, flags, hskew and vscan do not depend on the rotation |
| KmsCrtc.Crtc.constructor | src/glamo-kms-crtc.c:104-116 | a crtc with the given mode, position and rotation, disabled |
| KmsCrtc.Crtc.SetModeMajor | src/glamo-kms-crtc.c:104-188 | returns TRUE; a crtc not in use keeps mode, x, y and rotation; one in use takes the arguments and programs the rotated timings at (x, y) |
| KmsCrtc.CrtcModeFixup | src/glamo-kms-crtc.c:216-220 | always TRUE |
| Driver.ColorEntryBit | src/glamo-driver.c:863-866 | bit i of an entry: red bit i-8 on bits 8-10 and 12-15, green bit i-3 on bits 5-10, blue bit i+3 below |
| Driver.ColorEntryBit11Clear | src/glamo-driver.c:864 | bit 11 of an entry is 0 for every blue below 0x4000, so for every 8-bit blue |
| Driver.ColorEntryIs565 | src/glamo-driver.c:863-866 | for 8-bit components with red's four low bits clear, the entry is the RGB 5-6-5 pixel |
| Driver.ColorEntryNot565 | src/glamo-driver.c:864 | with red bit 3 set, the entry is never the 5-6-5 pixel |
| Driver.ColorEntryIs565Iff | src/glamo-driver.c:863-866 | for 8-bit components the entry is the 5-6-5 pixel if and only if red bit 3 is clear and red bits 0-2 are each covered by the set green bit 5-7 they overlap |
| Driver.LoadColormap | src/glamo-driver.c:849-868 | a new colormap of numColors entries replaces the old one, entry i packed from colors[indices[i]] |
| Driver.Screen.constructor | src/glamo-driver.c:185-193 | a screen with no driver private |
| Driver.Screen.GetRec | src/glamo-driver.c:185-193 | returns TRUE; allocates a zeroed record only when none exists, otherwise keeps it |
| Driver.Screen.FreeRec | src/glamo-driver.c:195-202 | the private is NULL afterwards, whether or not it was before |
| Driver.Screen.CrtcResize | src/glamo-driver.c:675-683 | virtualX = width, virtualY = height, displayWidth = width*(bpp/8), the screen pixmap's pitch follows; returns TRUE |
| Driver.ModuleSetup.constructor | src/glamo-driver.c:171 | setupDone starts FALSE |
| Driver.ModuleSetup.Setup | src/glamo-driver.c:168-181 | succeeds on the first call only; later calls fail and set errmaj to LDR_ONCEONLY when it is given |
| Driver.MmioPage | src/glamo-driver.c:211-215 | page_base + base_offset = base, page_base is page-aligned and base_offset < page size |
| Driver.MmioPageAligned | src/glamo-driver.c:211-215 | the base 0x8000000 is page-aligned for pages up to 2^27 bytes, so the offset is 0 |
| Driver.MapMmio | src/glamo-driver.c:208-239 | TRUE exactly when the open and the mmap succeed; a failed open leaves reg_base as it was, a failed mmap leaves it MAP_FAILED, success makes it the mapping plus base_offset |
| Driver.UnmapArgs | src/glamo-driver.c:241-250 | munmap gets reg_base rounded down to its page, and length plus page_base - reg_base |
| Driver.UnmapMmio | src/glamo-driver.c:241-250 | no munmap when reg_base is MAP_FAILED; otherwise munmap starts at the page holding reg_base and ends length less twice the page offset past it |
| Driver.UnmapMmioAfterMap | src/glamo-driver.c:208-249 | from the NULL reg_base of a fresh record: a failed open leads to munmap(0, 0x2400); a failed mmap to no munmap; a successful mmap of an aligned window to unmapping exactly that mapping |
| Driver.UnmapAfterMap | src/glamo-driver.c:236-249 | after mmap returns a page at a page-aligned address, unmap gets back exactly the mapped address and length |
| Driver.Restored | src/glamo-driver.c:796-806 | RestoreHW's three masked writes change only CLOCK_2D, GEN5_1 and HOSTBUS(2): CLOCK_ISP and GEN5_2 are never restored |
| Driver.RestoreUnchanged | src/glamo-driver.c:764-806 | restoring the values just saved changes no register |
| Driver.RestoredBits | src/glamo-driver.c:796-806 | inside each mask the bit is the saved bit, outside it the current bit |
| Driver.RestoreIdempotent | src/glamo-driver.c:796-806 | restoring twice equals restoring once |
| Driver.SaveHW | src/glamo-driver.c:764-770 | the five saved fields are the current register values |
| Driver.RestoreHW | src/glamo-driver.c:779-807 | the registers become the restored map, written as three traced writes in source order |

## Left out

- Polling loops. The ring-space wait (src/glamo-cmdq.c:89-99) and the engine wait
  (src/glamo-engine.c:260-262) poll asynchronous hardware. They are exit predicates
  over a read-pointer or status parameter, stated as preconditions. The hardware
  consumer is concurrent and not modelled.
- The MMIO inline assembly and `usleep` delays are not modelled. The register file is
  a map.
- `drmCommandWrite`, `glamo_bo_*`, `exa*`, `xf86*`, `mmap`/`munmap`/`open`/`write` and
  the `HAVE_ENGINE_IOCTLS` branches are foreign code. Their outcomes are parameters;
  submissions are ghost logs.
- `size_t`, `off_t` and `int` overflow in the counters, offsets and mode arithmetic is
  not modelled. Values that reach 16-bit registers are truncated explicitly.
- The floating-point `Clock * 1000.0` (src/glamo-kms-crtc.c:126, 234) is modelled as
  integer multiplication. `VRefresh`, mode names, `xf86SetModeCrtc` and
  `xf86SetModeDefaultName` are left out; they are floating point or string handling
  in X.
- Callbacks that are glue or empty stubs are left out: GetModes, Destroy and the KMS
  MarkSync/WaitMarker/Create/DestroyPixmap/FinishAccess hooks. So are the Composite
  and DoneComposite stubs, the block and wakeup handlers, DPMS, and the crtc
  lock/prepare/commit stubs.
- The JBT6K74 panel-state file I/O is left out except for the string `Output.CommitWrite`
  selects.
- glamo-cmdq.h and glamo-regs.h are not part of this model.
- `Draw.RingLocals`: models the glamo-cmdq.h macros by the shape of glamo-drm-cmdq.h,
  since their definitions are not available.
- `Draw.UploadToScreen`: requires non-negative pitches and that every row lies inside
  both buffers, since the source does not check its pointers. It takes x, y, w and h as
  naturals, so a negative height (a loop that runs no row) is not modelled. The
  framebuffer and the source buffer are distinct arrays, so overlapping copies are not
  modelled.
- `Draw.DownloadFromScreen`: the same requires as `Draw.UploadToScreen`, with the
  destination buffer in place of the source: non-negative pitches, every row inside
  both buffers, natural x, y, w and h, and a destination distinct from the framebuffer.
- `Draw.DrawEnable`: omits the fallback branch, because `GLAMOCMDQEnable` always
  returns TRUE.
- `Cmdq.Dispatch`: requires that the staging length is even and at most ring_len, and
  excludes the case where the second fixup writes past the ring
  (`Cmdq.FixupInRingIff`).
- `KmsExa.KmsQueue`: keeps only the live entries as sequences. Stores beyond the
  allocations are recorded in a ghost flag rather than as heap corruption.
- `KmsExa.ModifyPixmapHeader`: the X server's `miModifyPixmapHeader` is not part of
  this model. Its recomputation of devKind from width and depth for a negative devKind
  argument (PixmapBytePad) is not modelled; the model leaves devKind unchanged then.
- `KmsExa.MiModifyPixmapHeader`: same omission for a negative devKind.
- `Draw.PrepareSolid`: requires `alu < 16`, as EXA guarantees.
- `Draw.PrepareCopy`: requires `alu < 16`, as EXA guarantees.
- `KmsExa.PrepareSolid`: requires `alu < 16` and a private with a buffer object, as
  EXA guarantees.
- `KmsExa.PrepareCopy`: requires `alu < 16` and a private with a buffer object, as
  EXA guarantees.
- `KmsCrtc.Crtc.SetModeMajor`: omits the restore branch (src/glamo-kms-crtc.c:181-186),
  because `ret` is TRUE there.
- `Driver.LoadColormap`: takes LOCO components as 16-bit values, and the allocation as
  succeeding.
- `DrmCmdq.RingLocals.End`: the debug FatalError is modelled as an `aborted` flag that
  stops the block.
- `DrmCmdq.RingLocals.OutBurstReg`: the debug FatalError is modelled as an `aborted`
  flag that stops the block.
- `DrmCmdq.RingLocals.OutRegBO`: stores low bytes, since the object tables are `char *`.
  The byte tables are arrays of their own rather than views into `cmdq_objs` and
  `cmdq_obj_pos`, and their base offset `2*cmdq_obj_used` takes an element size
  that no declaration in glamo.h gives.
- `DrmCmdq.RingLocals.Out`: requires the entry to land inside `cmd_queue->data`. The
  store past the buffer after `Begin`'s DRM-only flush is not modelled.
- `DrmCmdq.RingLocals.OutPair`: requires both entries to land inside `cmd_queue->data`;
  the store past the buffer is not modelled.
- `DrmCmdq.RingLocals.OutRegBO`: requires the four placeholder entries to land inside
  `cmd_queue->data`; the store past the buffer is not modelled.
- `DrmCmdq.RingLocals.OutBurst`: requires the header and count to land inside
  `cmd_queue->data`; the store past the buffer is not modelled.
- `DrmCmdq.RingLocals.OutBurstReg`: requires the value entry to land inside
  `cmd_queue->data`; the store past the buffer is not modelled.
- `Driver.MmioPage`: takes the page size as a power of two, written as a shift.
