/**
 * The crtc of the kernel-modesetting driver: the translation of an X display mode into
 * the kernel's mode description, which swaps the horizontal and vertical timings for a
 * quarter-turn rotation, and the state a mode set leaves in the crtc.
 */
module KmsCrtc {
  import opened Bits
  import opened Glamo
  import opened Output

  /**
   * The kernel's mode description (drmModeModeInfo) as far as it is filled in: the
   * timings are 16-bit fields, the flags 32-bit, the clock in Hz.
   */
  datatype DrmMode = DrmMode(clock: int,
                             hdisplay: u16, hsyncStart: u16, hsyncEnd: u16, htotal: u16, hskew: u16,
                             vdisplay: u16, vsyncStart: u16, vsyncEnd: u16, vtotal: u16, vscan: u16,
                             flags: u32)

  /** The mode with its horizontal and vertical timings exchanged. */
  function Transpose(m: Mode): (r: Mode)
    ensures ModeMargins(r) == Margins(ModeMargins(m).lower, ModeMargins(m).vsync, ModeMargins(m).upper,
                                      ModeMargins(m).right, ModeMargins(m).hsync, ModeMargins(m).left)
  {
    m.(hDisplay := m.vDisplay, hSyncStart := m.vSyncStart, hSyncEnd := m.vSyncEnd, hTotal := m.vTotal,
       vDisplay := m.hDisplay, vSyncStart := m.hSyncStart, vSyncEnd := m.hSyncEnd, vTotal := m.hTotal)
  }

  lemma TransposeTwice(m: Mode)
    ensures Transpose(Transpose(m)) == m
  {
  }

  /** Every timing field of the mode fits the kernel's 16-bit field. */
  predicate Fits16(m: Mode)
  {
    0 <= m.hDisplay < 0x1_0000 && 0 <= m.hSyncStart < 0x1_0000 && 0 <= m.hSyncEnd < 0x1_0000 &&
    0 <= m.hTotal < 0x1_0000 && 0 <= m.hSkew < 0x1_0000 &&
    0 <= m.vDisplay < 0x1_0000 && 0 <= m.vSyncStart < 0x1_0000 && 0 <= m.vSyncEnd < 0x1_0000 &&
    0 <= m.vTotal < 0x1_0000 && 0 <= m.vScan < 0x1_0000
  }

  /** The mode a kernel description stands for, with the given clock and flags (the inverse of the unrotated translation). */
  function ModeOf(d: DrmMode, clock: int, flags: int): Mode
  {
    Mode(clock, d.hdisplay, d.hsyncStart, d.hsyncEnd, d.htotal, d.hskew,
         d.vdisplay, d.vsyncStart, d.vsyncEnd, d.vtotal, d.vscan, flags)
  }

  /**
   * The drm_mode of crtc_set_mode_major for rotation rot.  Rotations 0 and 180 copy the
   * timings, 90 and 270 copy them crosswise, and any other value copies them like 0.
   */
  function RotatedTimings(m: Mode, rot: nat): (r: DrmMode)
    ensures rot == RR_ROTATE_90 || rot == RR_ROTATE_270 ==> r == ModeSetTimings(Transpose(m))
    ensures rot != RR_ROTATE_90 && rot != RR_ROTATE_270 ==> r == ModeSetTimings(m)
  {
    var clock := m.clock * 1000;
    var flags := U32(m.flags);
    if rot == RR_ROTATE_0 || rot == RR_ROTATE_180 then
      DrmMode(clock, U16(m.hDisplay), U16(m.hSyncStart), U16(m.hSyncEnd), U16(m.hTotal), U16(m.hSkew),
              U16(m.vDisplay), U16(m.vSyncStart), U16(m.vSyncEnd), U16(m.vTotal), U16(m.vScan), flags)
    else if rot == RR_ROTATE_90 || rot == RR_ROTATE_270 then
      DrmMode(clock, U16(m.vDisplay), U16(m.vSyncStart), U16(m.vSyncEnd), U16(m.vTotal), U16(m.hSkew),
              U16(m.hDisplay), U16(m.hSyncStart), U16(m.hSyncEnd), U16(m.hTotal), U16(m.vScan), flags)
    else
      DrmMode(clock, U16(m.hDisplay), U16(m.hSyncStart), U16(m.hSyncEnd), U16(m.hTotal), U16(m.hSkew),
              U16(m.vDisplay), U16(m.vSyncStart), U16(m.vSyncEnd), U16(m.vTotal), U16(m.vScan), flags)
  }

  /**
   * The drm_mode of crtc_mode_set, the mode-set path of servers before 1.5: the
   * timings copied without a rotation swap.  For a mode whose fields fit, reading the
   * description back gives the mode.
   */
  function ModeSetTimings(m: Mode): (r: DrmMode)
    ensures Fits16(m) ==> ModeOf(r, m.clock, m.flags) == m
    ensures r.clock == m.clock * 1000 && r.flags == U32(m.flags)
  {
    DrmMode(m.clock * 1000, U16(m.hDisplay), U16(m.hSyncStart), U16(m.hSyncEnd), U16(m.hTotal), U16(m.hSkew),
            U16(m.vDisplay), U16(m.vSyncStart), U16(m.vSyncEnd), U16(m.vTotal), U16(m.vScan), U32(m.flags))
  }

  /**
   * For a quarter-turn rotation the kernel sees the mode turned on its side: its
   * horizontal timings are the mode's vertical ones and the other way round.
   */
  lemma QuarterTurnSwaps(m: Mode, rot: nat)
    requires Fits16(m) && (rot == RR_ROTATE_90 || rot == RR_ROTATE_270)
    ensures ModeOf(RotatedTimings(m, rot), m.clock, m.flags) == Transpose(m)
  {
    assert Fits16(Transpose(m));
  }

  /** Rotation 180 and every rotation the function does not know give the unrotated timings. */
  lemma OtherRotationsUnrotated(m: Mode, rot: nat)
    requires rot != RR_ROTATE_90 && rot != RR_ROTATE_270
    ensures RotatedTimings(m, rot) == RotatedTimings(m, RR_ROTATE_0)
  {
  }

  /** Clock, flags, skew and scan do not depend on the rotation. */
  lemma RotationKeepsFlags(m: Mode, a: nat, b: nat)
    ensures RotatedTimings(m, a).clock == RotatedTimings(m, b).clock
    ensures RotatedTimings(m, a).flags == RotatedTimings(m, b).flags
    ensures RotatedTimings(m, a).hskew == RotatedTimings(m, b).hskew
    ensures RotatedTimings(m, a).vscan == RotatedTimings(m, b).vscan
  {
  }

  /** The arguments of the drmModeSetCrtc call: the framebuffer position and the mode description. */
  datatype SetCrtcCall = SetCrtcCall(x: int, y: int, mode: DrmMode)

  /** The crtc fields crtc_set_mode_major reads and writes. */
  class Crtc {
    var mode: Mode
    var x: int
    var y: int
    var rotation: nat
    var enabled: bool

    constructor (mode0: Mode, x0: int, y0: int, rotation0: nat)
      ensures mode == mode0 && x == x0 && y == y0 && rotation == rotation0 && !enabled
    {
      mode, x, y, rotation, enabled := mode0, x0, y0, rotation0, false;
    }

    /**
     * crtc_set_mode_major; inUse is xf86CrtcInUse.  A crtc not in use keeps its mode
     * and position and nothing is sent to the kernel.  Otherwise the crtc takes the
     * new mode, position and rotation, and the kernel receives the rotated timings.
     * Either way the result is TRUE: the restore of the saved state is never reached.
     */
    method SetModeMajor(m: Mode, rot: nat, nx: int, ny: int, inUse: bool) returns (ret: bool, call: Option<SetCrtcCall>)
      modifies this
      ensures ret && enabled == inUse
      ensures !inUse ==> mode == old(mode) && x == old(x) && y == old(y) && rotation == old(rotation) && call == None
      ensures inUse ==> mode == m && x == nx && y == ny && rotation == rot
      ensures inUse ==> call == Some(SetCrtcCall(nx, ny, RotatedTimings(m, rot)))
    {
      enabled := inUse;
      if !enabled {
        return true, None;
      }
      mode := m;
      x := nx;
      y := ny;
      rotation := rot;
      var drm := RotatedTimings(m, rot);
      call := Some(SetCrtcCall(nx, ny, drm));
      ret := true;
    }
  }

  /** crtc_mode_fixup: every mode is accepted unchanged. */
  function CrtcModeFixup(m: Mode, adjusted: Mode): (r: bool)
    ensures r
  {
    true
  }
}
