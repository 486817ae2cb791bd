/**
 * The LCD output of the ring driver: the conversion of the framebuffer device's
 * timings into an X display mode, the second built-in mode derived from it, the panel
 * state chosen when a mode is committed, and the constant answers of the output
 * callbacks.
 *
 * Timings are unbounded integers: the 32-bit sums of the C code are not wrapped.
 */
module Output {
  import opened Bits
  import opened Glamo

  /** The fields of the framebuffer device's variable screen information that are read (all 32-bit unsigned). */
  datatype FbVar = FbVar(xres: u32, yres: u32, pixclock: u32,
                         leftMargin: u32, rightMargin: u32, upperMargin: u32, lowerMargin: u32,
                         hsyncLen: u32, vsyncLen: u32, rotate: u32)

  /** The timing fields of an X display mode (DisplayModeRec); Clock is in kHz. */
  datatype Mode = Mode(clock: int, hDisplay: int, hSyncStart: int, hSyncEnd: int, hTotal: int, hSkew: int,
                       vDisplay: int, vSyncStart: int, vSyncEnd: int, vTotal: int, vScan: int, flags: int)

  /** A mode as xnfcalloc returns it. */
  const ZERO_MODE := Mode(0, 0, 0, 0, 0, 0, 0, 0, 0, 0, 0, 0)

  /** The six porch and sync lengths of a set of timings, in the framebuffer device's terms. */
  datatype Margins = Margins(right: int, hsync: int, left: int, lower: int, vsync: int, upper: int)

  function FbMargins(v: FbVar): Margins
  {
    Margins(v.rightMargin, v.hsyncLen, v.leftMargin, v.lowerMargin, v.vsyncLen, v.upperMargin)
  }

  /** The lengths a mode's timings encode: the distances between consecutive timing points. */
  function ModeMargins(m: Mode): Margins
  {
    Margins(m.hSyncStart - m.hDisplay, m.hSyncEnd - m.hSyncStart, m.hTotal - m.hSyncEnd,
            m.vSyncStart - m.vDisplay, m.vSyncEnd - m.vSyncStart, m.vTotal - m.vSyncEnd)
  }

  /** The horizontal and the vertical timing points of a mode are in ascending order. */
  predicate Ordered(m: Mode)
  {
    m.hDisplay <= m.hSyncStart <= m.hSyncEnd <= m.hTotal &&
    m.vDisplay <= m.vSyncStart <= m.vSyncEnd <= m.vTotal
  }

  lemma DivBracket(n: nat, d: nat)
    requires d > 0
    ensures (n / d) * d <= n < (n / d + 1) * d
  {
    var q, r := n / d, n % d;
    assert n == q * d + r;
    assert (q + 1) * d == q * d + d;
  }

  /** The pixel clock in kHz of a pixel period in picoseconds: the largest c with c * pixclock <= 10^9, or 0 for period 0. */
  function FbClock(pixclock: u32): (r: nat)
    ensures pixclock == 0 ==> r == 0
    ensures pixclock != 0 ==> r * pixclock <= 1_000_000_000 < (r + 1) * pixclock
  {
    if pixclock != 0 then
      DivBracket(1_000_000_000, pixclock);
      1_000_000_000 / pixclock
    else 0
  }

  /**
   * ConvertModeFbToXfree, on the mode it fills in (m is what the mode held before):
   * the displayed size is the device's resolution, the timings encode exactly the
   * device's margins, the flags are cleared and the other fields are kept.
   */
  function ConvertMode(v: FbVar, m: Mode): (r: Mode)
    ensures r.hDisplay == v.xres && r.vDisplay == v.yres && r.clock == FbClock(v.pixclock)
    ensures ModeMargins(r) == FbMargins(v)
    ensures Ordered(r)
    ensures r.flags == 0 && r.hSkew == m.hSkew && r.vScan == m.vScan
  {
    var hSyncStart := v.xres + v.rightMargin;
    var hSyncEnd := hSyncStart + v.hsyncLen;
    var vSyncStart := v.yres + v.lowerMargin;
    var vSyncEnd := vSyncStart + v.vsyncLen;
    m.(hDisplay := v.xres, vDisplay := v.yres, clock := FbClock(v.pixclock),
       hSyncStart := hSyncStart, hSyncEnd := hSyncEnd, hTotal := hSyncEnd + v.leftMargin,
       vSyncStart := vSyncStart, vSyncEnd := vSyncEnd, vTotal := vSyncEnd + v.upperMargin,
       flags := 0)
  }

  /** Converting twice from the same device timings gives the same mode whatever the mode held first, apart from skew and scan. */
  lemma ConvertModeDeterminedByFb(v: FbVar, m1: Mode, m2: Mode)
    requires m1.hSkew == m2.hSkew && m1.vScan == m2.vScan
    ensures ConvertMode(v, m1) == ConvertMode(v, m2)
  {
  }

  // ---------------------------------------------------------------- rotation

  /** The framebuffer device's rotations (linux/fb.h), in quarter turns. */
  const FB_ROTATE_UR: nat := 0
  const FB_ROTATE_CW: nat := 1
  const FB_ROTATE_UD: nat := 2
  const FB_ROTATE_CCW: nat := 3

  /** The RandR rotation bits (randr.h). */
  const RR_ROTATE_0: nat := 1
  const RR_ROTATE_90: nat := 2
  const RR_ROTATE_180: nat := 4
  const RR_ROTATE_270: nat := 8

  /**
   * The rotation half of ConvertModeFbToXfree: `rotation` is the pointer (None for
   * NULL), the result what it points to afterwards.  A known device rotation of k
   * quarter turns becomes RandR bit k; any other value leaves the rotation as it was.
   */
  function ConvertRotation(rotate: u32, rotation: Option<nat>): (r: Option<nat>)
    ensures r.None? <==> rotation.None?
    ensures rotation.Some? && rotate < 4 ==> r == Some(Pow2(rotate))
    ensures rotate >= 4 ==> r == rotation
  {
    Pow2Values();
    if rotation.None? then None
    else if rotate == FB_ROTATE_UR then Some(RR_ROTATE_0)
    else if rotate == FB_ROTATE_CW then Some(RR_ROTATE_90)
    else if rotate == FB_ROTATE_UD then Some(RR_ROTATE_180)
    else if rotate == FB_ROTATE_CCW then Some(RR_ROTATE_270)
    else rotation
  }

  /** Different device rotations never map to the same RandR rotation. */
  lemma ConvertRotationInjective(a: u32, b: u32, cur: nat)
    requires a < 4 && b < 4 && a != b
    ensures ConvertRotation(a, Some(cur)) != ConvertRotation(b, Some(cur))
  {
    Pow2Values();
  }

  // ---------------------------------------------------------------- the built-in modes of GlamoOutputInit

  /**
   * The second built-in mode, from the duplicate of the first: doubled when the first is
   * at most 320 lines high, halved otherwise.  The field stores are made in their
   * source order; the first three are overwritten before anything reads them.
   */
  function DerivedMode(m: Mode): (r: Mode)
    ensures m.vDisplay <= 320 ==> r.hDisplay == 2 * m.hDisplay && r.vDisplay == 2 * m.vDisplay
    ensures m.vDisplay > 320 ==> r.hDisplay == TruncDiv(m.hDisplay, 2) && r.vDisplay == TruncDiv(m.vDisplay, 2)
    ensures r.hSyncStart == m.vSyncStart + r.vDisplay - r.hDisplay
    ensures r.hSyncEnd == m.vSyncEnd + r.vDisplay - r.hDisplay
    ensures r.hTotal == m.vTotal + r.vDisplay - r.hDisplay
    ensures r.vSyncStart == m.vSyncStart && r.vSyncEnd == m.vSyncEnd && r.vTotal == m.vTotal
    ensures r.clock == m.clock && r.hSkew == m.hSkew && r.vScan == m.vScan && r.flags == m.flags
  {
    if m.vDisplay <= 320 then
      var m1 := m.(hSyncStart := m.hDisplay * 2 + (m.hDisplay - m.hSyncStart));
      var m2 := m1.(hSyncEnd := m1.hDisplay * 2 + (m1.hDisplay - m1.hSyncEnd));
      var m3 := m2.(hTotal := m2.hDisplay * 2 + (m2.hDisplay - m2.hTotal));
      var m4 := m3.(hDisplay := m3.hDisplay * 2);
      var m5 := m4.(hSyncStart := m4.vDisplay * 2 + (m4.vSyncStart - m4.hDisplay));
      var m6 := m5.(hSyncEnd := m5.vDisplay * 2 + (m5.vSyncEnd - m5.hDisplay));
      var m7 := m6.(hTotal := m6.vDisplay * 2 + (m6.vTotal - m6.hDisplay));
      m7.(vDisplay := m7.vDisplay * 2)
    else
      var m1 := m.(hSyncStart := TruncDiv(m.hDisplay, 2) + (m.hDisplay - m.hSyncStart));
      var m2 := m1.(hSyncEnd := TruncDiv(m1.hDisplay, 2) + (m1.hDisplay - m1.hSyncEnd));
      var m3 := m2.(hTotal := TruncDiv(m2.hDisplay, 2) + (m2.hDisplay - m2.hTotal));
      var m4 := m3.(hDisplay := TruncDiv(m3.hDisplay, 2));
      var m5 := m4.(hSyncStart := TruncDiv(m4.vDisplay, 2) + (m4.vSyncStart - m4.hDisplay));
      var m6 := m5.(hSyncEnd := TruncDiv(m5.vDisplay, 2) + (m5.vSyncEnd - m5.hDisplay));
      var m7 := m6.(hTotal := TruncDiv(m6.vDisplay, 2) + (m6.vTotal - m6.hDisplay));
      m7.(vDisplay := TruncDiv(m7.vDisplay, 2))
  }

  /** The first mode's horizontal sync timings play no part in the derived mode. */
  lemma DerivedIgnoresHSync(m: Mode, hSyncStart: int, hSyncEnd: int, hTotal: int)
    ensures DerivedMode(m.(hSyncStart := hSyncStart, hSyncEnd := hSyncEnd, hTotal := hTotal)) == DerivedMode(m)
  {
  }

  /**
   * The derived mode's horizontal sync length and back porch are the first mode's
   * vertical ones; its vertical timings keep the first mode's positions.
   */
  lemma DerivedMargins(m: Mode)
    ensures ModeMargins(DerivedMode(m)).hsync == ModeMargins(m).vsync
    ensures ModeMargins(DerivedMode(m)).left == ModeMargins(m).upper
    ensures ModeMargins(DerivedMode(m)).vsync == ModeMargins(m).vsync
  {
  }

  /** A mode of the output's list, with whether it is the preferred one. */
  datatype ModeEntry = ModeEntry(mode: Mode, preferred: bool)

  /**
   * The built-in modes GlamoOutputInit lists, given whether the output private, the
   * first mode and its duplicate could be allocated: the device's mode, preferred,
   * then the derived one.
   */
  function BuiltinModes(v: FbVar, privOk: bool, modeOk: bool, dupOk: bool): (r: seq<ModeEntry>)
    ensures |r| == (if !privOk || !modeOk then 0 else if !dupOk then 1 else 2)
    ensures |r| >= 1 ==> r[0] == ModeEntry(ConvertMode(v, ZERO_MODE), true)
    ensures |r| == 2 ==> r[1] == ModeEntry(DerivedMode(r[0].mode), false)
  {
    if !privOk || !modeOk then []
    else
      var first := ConvertMode(v, ZERO_MODE);
      if !dupOk then [ModeEntry(first, true)]
      else [ModeEntry(first, true), ModeEntry(DerivedMode(first), false)]
  }

  // ---------------------------------------------------------------- commit, detect, valid, fixup

  const STATE_VGA := "normal"
  const STATE_QVGA := "qvga-normal"

  /** The panel state GlamoOutputCommit selects: the QVGA state exactly for a 240x320 mode. */
  function PanelState(m: Mode): (r: string)
    ensures r == STATE_QVGA <==> m.hDisplay == 240 && m.vDisplay == 320
    ensures r == STATE_VGA <==> !(m.hDisplay == 240 && m.vDisplay == 320)
  {
    assert STATE_QVGA != STATE_VGA by {
      assert |STATE_QVGA| != |STATE_VGA|;
    }
    if m.hDisplay == 240 && m.vDisplay == 320 then STATE_QVGA else STATE_VGA
  }

  /**
   * The characters GlamoOutputCommit writes to the panel's state file (None when the
   * file cannot be opened): the whole array, so the state with its terminating NUL.
   */
  function CommitWrite(crtcMode: Mode, fileOpen: bool): (r: Option<seq<char>>)
    ensures r.Some? <==> fileOpen
    ensures r.Some? ==> |r.value| == |PanelState(crtcMode)| + 1 && r.value[..|r.value| - 1] == PanelState(crtcMode)
    ensures r.Some? ==> r.value[|r.value| - 1] == '\0'
  {
    if fileOpen then Some(PanelState(crtcMode) + ['\0']) else None
  }

  /**
   * On a 240x320 or a 480x640 device the two built-in modes select different panel
   * states: the device's own mode one, the derived mode the other.
   */
  lemma BuiltinModesSelectBothStates(v: FbVar)
    requires (v.xres == 240 && v.yres == 320) || (v.xres == 480 && v.yres == 640)
    ensures var r := BuiltinModes(v, true, true, true);
      PanelState(r[0].mode) != PanelState(r[1].mode)
  {
    var r := BuiltinModes(v, true, true, true);
    assert STATE_QVGA != STATE_VGA by {
      assert |STATE_QVGA| != |STATE_VGA|;
    }
    if v.yres == 320 {
      assert r[1].mode.hDisplay == 480;
    } else {
      assert r[1].mode.hDisplay == 240 && r[1].mode.vDisplay == 320;
    }
  }

  datatype OutputStatus = Connected | Disconnected | Unknown

  /** GlamoOutputDetect: the panel is always connected. */
  function Detect(): (r: OutputStatus)
    ensures r == Connected
  {
    Connected
  }

  /** The X server's MODE_OK; its value is fixed outside this driver. */
  const MODE_OK: int

  /** GlamoOutputModeValid: every mode is accepted. */
  function ModeValid(m: Mode): (r: int)
    ensures r == MODE_OK
  {
    MODE_OK
  }

  /** GlamoOutputModeFixup: every mode is accepted unchanged. */
  function ModeFixup(m: Mode, adjusted: Mode): (r: bool)
    ensures r
  {
    true
  }
}
