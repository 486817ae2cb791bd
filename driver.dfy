/**
 * The X driver glue of the ring driver that carries logic of its own: the 16-bit
 * colormap, the driver record's allocation, the once-only module setup, the page
 * arithmetic of the register mapping, the registers saved and restored around a VT
 * switch, and the resize of the virtual screen.
 */
module Driver {
  import opened Bits
  import opened Glamo
  import Engine

  // ---------------------------------------------------------------- GlamoLoadColormap

  /** One colormap entry as the server passes it (LOCO), each component a 16-bit unsigned value. */
  datatype Loco = Loco(red: u16, green: u16, blue: u16)

  /** The bits of the two colormap masks. */
  lemma ColorMaskBits(i: nat)
    ensures Bit(0xf700, i) == (8 <= i < 16 && i != 11)
    ensures Bit(0x7e0, i) == (5 <= i < 11)
  {
    MaskBit(0xf700, i);
    MaskBit(0x7e0, i);
  }

  /** A bit of a 16-bit constant, read as a digit of its binary expansion. */
  lemma MaskBit(m: u16, i: nat)
    ensures i >= 16 ==> !Bit(m, i)
    ensures i < 16 ==> Bit(m, i) == ((m / [1, 2, 4, 8, 0x10, 0x20, 0x40, 0x80, 0x100, 0x200, 0x400, 0x800,
                                         0x1000, 0x2000, 0x4000, 0x8000][i]) % 2 == 1)
  {
    Pow2Values();
    if i >= 16 {
      BitAbove(m, 16, i);
    } else {
      BitDiv(m, i);
      Pow2Table(i);
    }
  }

  lemma Pow2Table(i: nat)
    requires i < 16
    ensures Pow2(i) == [1, 2, 4, 8, 0x10, 0x20, 0x40, 0x80, 0x100, 0x200, 0x400, 0x800, 0x1000, 0x2000, 0x4000, 0x8000][i]
  {
    if i > 0 {
      Pow2Table(i - 1);
    }
  }

  /**
   * The pixel value stored for one colormap entry:
   * ((red << 8) & 0xf700) | ((green << 3) & 0x7e0) | (blue >> 3).
   * It fits the 16-bit colormap slot for every 16-bit component.
   */
  function ColorEntry(c: Loco): (r: u16)
    ensures r == Or(Or(And(Shl(c.red, 8), 0xf700), And(Shl(c.green, 3), 0x7e0)), Shr(c.blue, 3))
  {
    Pow2Values();
    ShrDiv(c.blue, 3);
    var rg := Or16(And(Shl(c.red, 8), 0xf700), And(Shl(c.green, 3), 0x7e0));
    Or16(rg, Shr(c.blue, 3))
  }

  /** Bit i of an entry: a red bit on positions 8-10 and 12-15, a green bit on 5-10, a blue bit anywhere. */
  lemma ColorEntryBit(c: Loco, i: nat)
    ensures Bit(ColorEntry(c), i) ==
      ((8 <= i < 16 && i != 11 && Bit(c.red, i - 8)) || (5 <= i < 11 && Bit(c.green, i - 3)) || Bit(c.blue, i + 3))
  {
    var rp, gp := And(Shl(c.red, 8), 0xf700), And(Shl(c.green, 3), 0x7e0);
    BitOr(Or(rp, gp), Shr(c.blue, 3), i);
    BitOr(rp, gp, i);
    BitAnd(Shl(c.red, 8), 0xf700, i);
    BitAnd(Shl(c.green, 3), 0x7e0, i);
    BitShl(c.red, 8, i);
    BitShl(c.green, 3, i);
    BitShr(c.blue, 3, i);
    ColorMaskBits(i);
  }

  /** Bit 11 of an entry is never set while blue has no bit at 14 or above (every 8-bit blue). */
  lemma ColorEntryBit11Clear(c: Loco)
    requires c.blue < 0x4000
    ensures !Bit(ColorEntry(c), 11)
  {
    ColorEntryBit(c, 11);
    Pow2Values();
    assert Pow2(14) == 0x4000 by {
      Pow2Add(11, 3);
    }
    BitAbove(c.blue, 14, 14);
  }

  /** The RGB 5-6-5 pixel of 8-bit components: the top five, six and five bits of red, green and blue. */
  function Pack565(r: u8, g: u8, b: u8): nat
  {
    Or(Or(Shl(Shr(r, 3), 11), Shl(Shr(g, 2), 5)), Shr(b, 3))
  }

  lemma Pack565Bit(r: u8, g: u8, b: u8, i: nat)
    ensures Bit(Pack565(r, g, b), i) ==
      ((11 <= i && Bit(r, i - 8)) || (5 <= i && Bit(g, i - 3)) || Bit(b, i + 3))
  {
    BitOr(Or(Shl(Shr(r, 3), 11), Shl(Shr(g, 2), 5)), Shr(b, 3), i);
    BitOr(Shl(Shr(r, 3), 11), Shl(Shr(g, 2), 5), i);
    BitShl(Shr(r, 3), 11, i);
    BitShl(Shr(g, 2), 5, i);
    if 11 <= i {
      BitShr(r, 3, i - 11);
    }
    if 5 <= i {
      BitShr(g, 2, i - 5);
    }
    BitShr(b, 3, i);
  }

  /**
   * For 8-bit components whose red value has its four low bits clear, the entry is the
   * RGB 5-6-5 pixel.  The red mask 0xf700 drops bit 3 of red and lets bits 0-2 of red
   * into the green field; ColorEntryIs565Iff gives the exact condition.
   */
  lemma ColorEntryIs565(r: u8, g: u8, b: u8)
    requires r % 16 == 0
    ensures ColorEntry(Loco(r, g, b)) == Pack565(r, g, b)
  {
    Pow2Values();
    assert Pow2(4) == 16;
    forall i: nat
      ensures Bit(ColorEntry(Loco(r, g, b)), i) == Bit(Pack565(r, g, b), i)
    {
      ColorEntryBit(Loco(r, g, b), i);
      Pack565Bit(r, g, b, i);
      if i >= 8 && i < 12 {
        LowBitsClear(r, 4, i - 8);
      }
      if i >= 16 {
        BitAbove(r, 8, i - 8);
      }
      if i >= 11 {
        BitAbove(g, 8, i - 3);
      }
    }
    BitsEqual(ColorEntry(Loco(r, g, b)), Pack565(r, g, b));
  }

  /** An 8-bit red with bit 3 set never gives the 5-6-5 pixel: that bit is lost from the entry. */
  lemma ColorEntryNot565(r: u8, g: u8, b: u8)
    requires Bit(r, 3)
    ensures ColorEntry(Loco(r, g, b)) != Pack565(r, g, b)
  {
    ColorEntryBit11Clear(Loco(r, g, b));
    Pack565Bit(r, g, b, 11);
  }

  /**
   * The condition under which an entry of 8-bit components is the 5-6-5 pixel: red bit 3
   * is clear, and every red bit 0-2 falls on a green bit 5-7 that is already set.
   */
  predicate RedHiddenByGreen(r: u8, g: u8)
  {
    !Bit(r, 3) && (Bit(r, 0) ==> Bit(g, 5)) && (Bit(r, 1) ==> Bit(g, 6)) && (Bit(r, 2) ==> Bit(g, 7))
  }

  /** The entry of 8-bit components equals the RGB 5-6-5 pixel exactly when RedHiddenByGreen holds. */
  lemma ColorEntryIs565Iff(r: u8, g: u8, b: u8)
    ensures ColorEntry(Loco(r, g, b)) == Pack565(r, g, b) <==> RedHiddenByGreen(r, g)
  {
    Pow2Values();
    var c := Loco(r, g, b);
    BitAbove(g, 8, 8);
    BitAbove(b, 8, 11);
    BitAbove(b, 8, 12);
    BitAbove(b, 8, 13);
    BitAbove(b, 8, 14);
    if ColorEntry(c) == Pack565(r, g, b) {
      ColorEntryBit(c, 8);
      ColorEntryBit(c, 9);
      ColorEntryBit(c, 10);
      ColorEntryBit(c, 11);
      Pack565Bit(r, g, b, 8);
      Pack565Bit(r, g, b, 9);
      Pack565Bit(r, g, b, 10);
      Pack565Bit(r, g, b, 11);
    } else if RedHiddenByGreen(r, g) {
      forall i: nat
        ensures Bit(ColorEntry(c), i) == Bit(Pack565(r, g, b), i)
      {
        ColorEntryBit(c, i);
        Pack565Bit(r, g, b, i);
        if i >= 16 {
          BitAbove(r, 8, i - 8);
        }
        if i >= 11 {
          BitAbove(g, 8, i - 3);
        }
      }
      BitsEqual(ColorEntry(c), Pack565(r, g, b));
    }
  }

  /**
   * GlamoLoadColormap: the previous colormap is replaced by a new one of numColors
   * entries, entry i packed from the colour indices[i] selects.
   */
  method LoadColormap(g: GlamoRec, numColors: nat, indices: seq<int>, colors: seq<Loco>)
    requires numColors <= |indices|
    requires forall i :: 0 <= i < numColors ==> 0 <= indices[i] < |colors|
    modifies g`colormap
    ensures g.colormap != null && fresh(g.colormap) && g.colormap.Length == numColors
    ensures forall i :: 0 <= i < numColors ==> g.colormap[i] == ColorEntry(colors[indices[i]])
  {
    var map16 := new u16[numColors];
    g.colormap := map16;
    for i := 0 to numColors
      invariant g.colormap == map16
      invariant forall j :: 0 <= j < i ==> map16[j] == ColorEntry(colors[indices[j]])
    {
      map16[i] := ColorEntry(colors[indices[i]]);
    }
  }

  // ---------------------------------------------------------------- GlamoGetRec, GlamoFreeRec, GlamoSetup, GlamoCrtcResize

  /** The fields of the screen record (ScrnInfoRec) the driver glue reads and writes. */
  class Screen {
    var driverPrivate: GlamoRec?
    var virtualX: int
    var virtualY: int
    var displayWidth: int
    var bitsPerPixel: int
    /** devKind of the screen pixmap: its row pitch in bytes. */
    var screenPitch: int

    constructor (bpp: int)
      ensures driverPrivate == null && bitsPerPixel == bpp
      ensures virtualX == 0 && virtualY == 0 && displayWidth == 0 && screenPitch == 0
    {
      driverPrivate := null;
      bitsPerPixel := bpp;
      virtualX, virtualY, displayWidth, screenPitch := 0, 0, 0, 0;
    }

    /** GlamoGetRec: a zeroed record is allocated only when there is none; the result is always TRUE. */
    method GetRec() returns (r: bool)
      modifies this`driverPrivate
      ensures r && driverPrivate != null
      ensures old(driverPrivate) != null ==> driverPrivate == old(driverPrivate)
      ensures old(driverPrivate) == null ==>
        fresh(driverPrivate) && driverPrivate.regBase == null && driverPrivate.cmdQueue == null &&
        driverPrivate.ring == null && driverPrivate.colormap == null
    {
      if driverPrivate != null {
        return true;
      }
      driverPrivate := new GlamoRec();
      r := true;
    }

    /** GlamoFreeRec: afterwards there is no record; freeing twice is freeing once. */
    method FreeRec()
      modifies this`driverPrivate
      ensures driverPrivate == null
    {
      if driverPrivate == null {
        return;
      }
      driverPrivate := null;
    }

    /** The screen pixmap's pitch is the display width. */
    ghost predicate PitchConsistent()
      reads this
    {
      screenPitch == displayWidth
    }

    /**
     * GlamoCrtcResize: the virtual size becomes width x height, and the display width
     * and the screen pixmap's pitch become width times the whole bytes per pixel.
     */
    method CrtcResize(width: int, height: int) returns (r: bool)
      modifies this`virtualX, this`virtualY, this`displayWidth, this`screenPitch
      ensures r && virtualX == width && virtualY == height
      ensures displayWidth == width * TruncDiv(bitsPerPixel, 8)
      ensures PitchConsistent()
    {
      virtualX := width;
      virtualY := height;
      displayWidth := width * TruncDiv(bitsPerPixel, 8);
      screenPitch := displayWidth;
      r := true;
    }
  }

  /** The loader's LDR_ONCEONLY error code; its value is fixed outside this driver. */
  const LDR_ONCEONLY: int

  /** GlamoSetup's static flag and the number of times the driver was registered. */
  class ModuleSetup {
    var setupDone: bool
    ghost var registrations: nat

    /** The driver is registered exactly once once setup is done, and not before. */
    ghost predicate Valid()
      reads this
    {
      registrations == (if setupDone then 1 else 0)
    }

    constructor ()
      ensures Valid() && !setupDone
    {
      setupDone := false;
      registrations := 0;
    }

    /**
     * GlamoSetup.  errMajor is *errmaj, None for a NULL pointer.  The first call
     * registers the driver and returns non-NULL (ok); every later call returns NULL and
     * stores LDR_ONCEONLY through a non-NULL errmaj.
     */
    method Setup(errMajor: Option<int>) returns (ok: bool, errMajorAfter: Option<int>)
      requires Valid()
      modifies this
      ensures Valid() && setupDone
      ensures ok == !old(setupDone)
      ensures ok ==> errMajorAfter == errMajor
      ensures !ok ==> errMajorAfter == if errMajor.Some? then Some(LDR_ONCEONLY) else None
    {
      if !setupDone {
        setupDone := true;
        registrations := registrations + 1;
        return true, errMajor;
      }
      if errMajor.Some? {
        errMajorAfter := Some(LDR_ONCEONLY);
      } else {
        errMajorAfter := None;
      }
      ok := false;
    }
  }

  // ---------------------------------------------------------------- GlamoMapMMIO, GlamoUnmapMMIO

  /** The physical address and the length of the register window. */
  const MMIO_BASE: nat := 0x800_0000
  const MMIO_LENGTH: nat := 0x2400

  /** addr & ~(pagesize - 1) */
  function PageBase(addr: nat, pageSize: nat): nat
    requires pageSize >= 1
  {
    AndNot(addr, pageSize - 1)
  }

  /**
   * The page the register window starts in and the window's offset inside it, for a
   * page size of 2^pageShift: they add up to the window's address, the page start is
   * page-aligned and the offset lies inside the page.
   */
  function MmioPage(pageShift: nat): (r: (nat, nat))
    ensures r.0 + r.1 == MMIO_BASE
    ensures r.0 % Pow2(pageShift) == 0 && r.1 < Pow2(pageShift)
  {
    var pageBase := PageBase(MMIO_BASE, Pow2(pageShift));
    AndNotLowMask(MMIO_BASE, pageShift);
    AlignedDown(MMIO_BASE, Pow2(pageShift));
    (pageBase, MMIO_BASE - pageBase)
  }

  lemma AlignedDown(x: nat, p: nat)
    requires p > 0
    ensures (x - x % p) % p == 0
  {
    var q := x / p;
    assert x - x % p == p * q;
    DivModUnique(p * q, p, q, 0);
  }

  /** The register window is page-aligned for every page size up to 128 MiB, so its offset is 0. */
  lemma MmioPageAligned(pageShift: nat)
    requires pageShift <= 27
    ensures MmioPage(pageShift).1 == 0
  {
    Pow2Values();
    Pow2Add(23, 4);
    Pow2Add(pageShift, 27 - pageShift);
    assert MMIO_BASE == Pow2(pageShift) * Pow2(27 - pageShift);
    DivModUnique(MMIO_BASE, Pow2(pageShift), Pow2(27 - pageShift), 0);
    AndNotLowMask(MMIO_BASE, pageShift);
  }

  /**
   * GlamoMapMMIO: its result and reg_base afterwards.  A reg_base is `None` for
   * MAP_FAILED and `Some(a)` for address a (NULL is `Some(0)`).  `prior` is reg_base
   * before the call, `openOk` whether /dev/mem could be opened and `mapping` where mmap
   * placed the page (`None` when it fails).  A failed open leaves reg_base as it was; a
   * failed mmap leaves it MAP_FAILED; otherwise it is the mapping plus base_offset.
   */
  function MapMmio(prior: Option<nat>, openOk: bool, mapping: Option<nat>, pageShift: nat): (r: (bool, Option<nat>))
    ensures r.0 <==> openOk && mapping.Some?
    ensures !openOk ==> r.1 == prior
    ensures openOk && mapping.None? ==> r.1.None?
    ensures r.0 ==> r.1 == Some(mapping.value + MMIO_BASE % Pow2(pageShift))
  {
    AndNotLowMask(MMIO_BASE, pageShift);
    if !openOk then (false, prior)
    else if mapping.None? then (false, None)
    else (true, Some(mapping.value + MmioPage(pageShift).1))
  }

  /**
   * The start and length GlamoUnmapMMIO passes to munmap for register base regBase:
   * the page regBase lies in, and the window length plus that page's start minus
   * regBase.  The unmapped length is the window length less the window's offset,
   * taken without the wrap of size_t.
   */
  function UnmapArgs(regBase: nat, pageShift: nat): (r: (nat, int))
    ensures r.0 == regBase - regBase % Pow2(pageShift)
    ensures r.1 == MMIO_LENGTH - regBase % Pow2(pageShift)
  {
    var pageBase := PageBase(regBase, Pow2(pageShift));
    AndNotLowMask(regBase, pageShift);
    (pageBase, MMIO_LENGTH + (pageBase - regBase))
  }

  /**
   * Unmapping what was mapped: munmap gets the page mmap returned, and the length
   * mmap was given whenever the window starts on a page boundary.
   */
  lemma UnmapAfterMap(at: nat, pageShift: nat)
    requires at % Pow2(pageShift) == 0 && pageShift <= 27
    ensures UnmapArgs(MapMmio(Some(0), true, Some(at), pageShift).1.value, pageShift) == (at, MMIO_LENGTH)
  {
    MmioPageAligned(pageShift);
    AndNotLowMask(MMIO_BASE, pageShift);
  }

  /**
   * GlamoUnmapMMIO: the munmap call it makes, if any.  A register base left at
   * MAP_FAILED (`None`) makes no call at all; any other, NULL included, is unmapped.
   */
  function UnmapMmio(regBase: Option<nat>, pageShift: nat): (r: Option<(nat, int)>)
    ensures r.None? <==> regBase.None?
    ensures r.Some? ==> r.value.0 <= regBase.value < r.value.0 + Pow2(pageShift)
    ensures r.Some? ==> r.value.0 + r.value.1 == regBase.value - regBase.value % Pow2(pageShift) + MMIO_LENGTH - regBase.value % Pow2(pageShift)
  {
    if regBase.None? then None else Some(UnmapArgs(regBase.value, pageShift))
  }

  /**
   * Map then unmap, starting from the NULL reg_base of a fresh driver record: after a
   * failed open the NULL base is unmapped as munmap(0, 0x2400); no munmap follows a
   * failed mmap; and a mapping of a page-aligned window is handed back whole.
   */
  lemma UnmapMmioAfterMap(openOk: bool, mapping: Option<nat>, pageShift: nat)
    requires mapping.Some? ==> mapping.value % Pow2(pageShift) == 0
    requires pageShift <= 27
    ensures UnmapMmio(MapMmio(Some(0), openOk, mapping, pageShift).1, pageShift) ==
      if !openOk then Some((0, MMIO_LENGTH))
      else if mapping.None? then None
      else Some((mapping.value, MMIO_LENGTH))
  {
    if !openOk {
      assert UnmapArgs(0, pageShift) == (0, MMIO_LENGTH);
    } else if mapping.Some? {
      UnmapAfterMap(mapping.value, pageShift);
    }
  }

  // ---------------------------------------------------------------- GlamoSaveHW, GlamoRestoreHW

  /** The bits GlamoRestoreHW rewrites in each register. */
  function Restore2DMask(): u16
  {
    Or16(Or16(Or16(Or16(Engine.CLOCK_2D_EN_M6CLK, Engine.CLOCK_2D_EN_M7CLK), Engine.CLOCK_2D_EN_GCLK),
              Engine.CLOCK_2D_DG_M7CLK), Engine.CLOCK_2D_DG_GCLK)
  }

  function RestoreGen51Mask(): u16
  {
    Or16(Engine.CLOCK_GEN51_EN_DIV_MCLK, Engine.CLOCK_GEN51_EN_DIV_GCLK)
  }

  function RestoreHostbusMask(): u16
  {
    Or16(Engine.HOSTBUS2_MMIO_EN_CMDQ, Engine.HOSTBUS2_MMIO_EN_2D)
  }

  /** The registers after GlamoRestoreHW from regs, with the values saved for CLOCK_2D, GEN5_1 and HOSTBUS(2). */
  function Restored(regs: map<Reg, u16>, clock2D: u16, gen51: u16, hostbus2: u16): (r: map<Reg, u16>)
    requires forall x: Reg :: x in regs
    ensures forall x: Reg :: x in r
    ensures forall x: Reg :: x != Clock2D && x != ClockGen51 && x != Hostbus2 ==> r[x] == regs[x]
  {
    var r1 := UpdateReg(regs, Clock2D, Restore2DMask(), clock2D);
    var r2 := UpdateReg(r1, ClockGen51, RestoreGen51Mask(), gen51);
    UpdateReg(r2, Hostbus2, RestoreHostbusMask(), hostbus2)
  }

  /** Restoring what was saved from unchanged registers changes nothing. */
  lemma RestoreUnchanged(regs: map<Reg, u16>)
    requires forall x: Reg :: x in regs
    ensures Restored(regs, regs[Clock2D], regs[ClockGen51], regs[Hostbus2]) == regs
  {
    RewriteSame(regs[Clock2D], Restore2DMask());
    RewriteSame(regs[ClockGen51], RestoreGen51Mask());
    RewriteSame(regs[Hostbus2], RestoreHostbusMask());
    var r := Restored(regs, regs[Clock2D], regs[ClockGen51], regs[Hostbus2]);
    assert forall x: Reg :: r[x] == regs[x];
    MapsEqual(r, regs);
  }

  /**
   * After any changes since the save, each restored register has the saved value's
   * bits inside its mask and the current value's bits outside it.
   */
  lemma RestoredBits(regs: map<Reg, u16>, clock2D: u16, gen51: u16, hostbus2: u16, i: nat)
    requires forall x: Reg :: x in regs
    ensures var r := Restored(regs, clock2D, gen51, hostbus2);
      Bit(r[Clock2D], i) == (if Bit(Restore2DMask(), i) then Bit(clock2D, i) else Bit(regs[Clock2D], i)) &&
      Bit(r[ClockGen51], i) == (if Bit(RestoreGen51Mask(), i) then Bit(gen51, i) else Bit(regs[ClockGen51], i)) &&
      Bit(r[Hostbus2], i) == (if Bit(RestoreHostbusMask(), i) then Bit(hostbus2, i) else Bit(regs[Hostbus2], i))
  {
    BitMaskUpdateBit(regs[Clock2D], Restore2DMask(), clock2D, i);
    BitMaskUpdateBit(regs[ClockGen51], RestoreGen51Mask(), gen51, i);
    BitMaskUpdateBit(regs[Hostbus2], RestoreHostbusMask(), hostbus2, i);
  }

  /** Restoring twice from the same saved values is restoring once. */
  lemma RestoreIdempotent(regs: map<Reg, u16>, clock2D: u16, gen51: u16, hostbus2: u16)
    requires forall x: Reg :: x in regs
    ensures Restored(Restored(regs, clock2D, gen51, hostbus2), clock2D, gen51, hostbus2) ==
            Restored(regs, clock2D, gen51, hostbus2)
  {
    Idempotent(regs[Clock2D], Restore2DMask(), clock2D);
    Idempotent(regs[ClockGen51], RestoreGen51Mask(), gen51);
    Idempotent(regs[Hostbus2], RestoreHostbusMask(), hostbus2);
    var once := Restored(regs, clock2D, gen51, hostbus2);
    var twice := Restored(once, clock2D, gen51, hostbus2);
    assert forall x: Reg :: twice[x] == once[x];
    MapsEqual(twice, once);
  }

  /** GlamoSaveHW: the five clock and bus registers are saved; no register changes. */
  method SaveHW(g: GlamoRec)
    requires g.regBase != null && g.regBase.Valid()
    modifies g`savedClock2D, g`savedClockIsp, g`savedClockGen51, g`savedClockGen52, g`savedHostbus2
    ensures g.savedClock2D == g.regBase.regs[Clock2D] && g.savedClockIsp == g.regBase.regs[ClockIsp]
    ensures g.savedClockGen51 == g.regBase.regs[ClockGen51] && g.savedClockGen52 == g.regBase.regs[ClockGen52]
    ensures g.savedHostbus2 == g.regBase.regs[Hostbus2]
  {
    var mmio := g.regBase;
    g.savedClock2D := mmio.In16(Clock2D);
    g.savedClockIsp := mmio.In16(ClockIsp);
    g.savedClockGen51 := mmio.In16(ClockGen51);
    g.savedClockGen52 := mmio.In16(ClockGen52);
    g.savedHostbus2 := mmio.In16(Hostbus2);
  }

  /**
   * GlamoRestoreHW: the masked bits of CLOCK_2D, GEN5_1 and HOSTBUS(2) are rewritten
   * from the saved values, in that order; CLOCK_ISP and GEN5_2 are not restored.
   */
  method RestoreHW(g: GlamoRec)
    requires g.regBase != null && g.regBase.Valid()
    modifies g.regBase
    ensures g.regBase.Valid()
    ensures g.regBase.regs == Restored(old(g.regBase.regs), g.savedClock2D, g.savedClockGen51, g.savedHostbus2)
    ensures g.regBase.trace == old(g.regBase.trace) +
      [(Clock2D, g.regBase.regs[Clock2D]), (ClockGen51, g.regBase.regs[ClockGen51]), (Hostbus2, g.regBase.regs[Hostbus2])]
  {
    var mmio := g.regBase;
    mmio.SetBitMask(Clock2D, Restore2DMask(), g.savedClock2D);
    mmio.SetBitMask(ClockGen51, RestoreGen51Mask(), g.savedClockGen51);
    mmio.SetBitMask(Hostbus2, RestoreHostbusMask(), g.savedHostbus2);
  }
}
