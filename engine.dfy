/**
 * The engine controller of glamo-engine.c: the busy test on the command-queue
 * status word, the exit condition of the wait loop, and the register
 * read-modify-write sequences that reset, enable and disable an engine.
 *
 * The build without HAVE_ENGINE_IOCTLS is modelled; the settle delays
 * (usleep) and the polling itself are not.
 */
module Engine {
  import opened Bits
  import opened Glamo

  /** enum GLAMOEngine of glamo-engine.h. */
  datatype Engine = Cmdq | Isp | TwoD | Mpeg | All

  // Bit groups of glamo-regs.h (values not part of this model).
  const CLOCK_2D_CMDQ_RESET: u16
  const CLOCK_2D_RESET: u16
  const CLOCK_ISP2_RESET: u16
  const CLOCK_2D_EN_M6CLK: u16
  const CLOCK_2D_EN_M7CLK: u16
  const CLOCK_2D_EN_GCLK: u16
  const CLOCK_2D_DG_M7CLK: u16
  const CLOCK_2D_DG_GCLK: u16
  const CLOCK_ISP_EN_M2CLK: u16
  const CLOCK_ISP_EN_I1CLK: u16
  const CLOCK_GEN51_EN_DIV_MCLK: u16
  const CLOCK_GEN51_EN_DIV_JCLK: u16
  const CLOCK_GEN51_EN_DIV_GCLK: u16
  const CLOCK_GEN52_EN_DIV_ICLK: u16
  const HOSTBUS2_MMIO_EN_CMDQ: u16
  const HOSTBUS2_MMIO_EN_ISP: u16
  const HOSTBUS2_MMIO_EN_2D: u16

  // ---------------------------------------------------------------- busy and wait

  datatype MaskVal = MaskVal(mask: u16, val: u16)

  /** The mask/value pair GLAMOEngineBusy selects for an engine. */
  function BusyTable(e: Engine): MaskVal
  {
    match e
    case Cmdq => MaskVal(0x3, 0x3)
    case Isp => MaskVal(0x103, 0x3)
    case TwoD => MaskVal(0x13, 0x3)
    case _ => MaskVal(0x4, 0x4)
  }

  /** The mask/value pair GLAMOEngineWait selects (a second copy of the table in the source). */
  function WaitTable(e: Engine): MaskVal
  {
    match e
    case Cmdq => MaskVal(0x3, 0x3)
    case Isp => MaskVal(0x3 + 0x100, 0x3)
    case TwoD => MaskVal(0x3 + 0x10, 0x3)
    case All => MaskVal(0x4, 0x4)
    case Mpeg => MaskVal(0x4, 0x4)
  }

  /** The engine is busy for this status word when (status & mask) != val. */
  predicate StatusBusy(e: Engine, status: u16)
  {
    And(status, BusyTable(e).mask) != BusyTable(e).val
  }

  /** The do-while loop of GLAMOEngineWait stops at the first status word for which this holds. */
  predicate WaitDone(e: Engine, status: u16)
  {
    And(status, WaitTable(e).mask) == WaitTable(e).val
  }

  /** GLAMOEngineBusy: FALSE without a register mapping, otherwise the status test. */
  function Busy(mmio: Mmio?, e: Engine): bool
    reads mmio
    requires mmio != null ==> mmio.Valid()
  {
    mmio != null && StatusBusy(e, mmio.In16(CmdqStatus))
  }

  /** Every bit of v is the corresponding bit of s & m. */
  ghost predicate AndBitsAre(s: nat, m: nat, v: nat)
  {
    forall i: nat :: (Bit(s, i) && Bit(m, i)) == Bit(v, i)
  }

  /** (status & mask) == val, bit by bit. */
  lemma AndEqualsBits(s: nat, m: nat, v: nat)
    ensures And(s, m) == v <==> AndBitsAre(s, m, v)
  {
    if And(s, m) == v {
      forall i: nat ensures (Bit(s, i) && Bit(m, i)) == Bit(v, i) {
        BitAnd(s, m, i);
      }
    } else if AndBitsAre(s, m, v) {
      forall i: nat ensures Bit(And(s, m), i) == Bit(v, i) {
        BitAnd(s, m, i);
      }
      BitsEqual(And(s, m), v);
    }
  }

  /** The bits of the constant masks of the busy table. */
  lemma MaskBits(i: nat)
    ensures Bit(0x3, i) == (i < 2)
    ensures Bit(0x4, i) == (i == 2)
    ensures Bit(0x13, i) == (i < 2 || i == 4)
    ensures Bit(0x103, i) == (i < 2 || i == 8)
  {
    Pow2Values();
    assert Pow2(9) == 512;
    if i >= 9 {
      BitAbove(0x3, 9, i);
      BitAbove(0x4, 9, i);
      BitAbove(0x13, 9, i);
      BitAbove(0x103, 9, i);
    } else if i == 0 {
    } else if i == 1 {
    } else if i == 2 {
      assert !Bit(0x3, 2) && Bit(0x4, 2) && !Bit(0x13, 2) && !Bit(0x103, 2);
    } else if i == 3 {
      assert !Bit(0x3, 3) && !Bit(0x4, 3) && !Bit(0x13, 3) && !Bit(0x103, 3);
    } else if i == 4 {
      assert !Bit(0x3, 4) && !Bit(0x4, 4) && Bit(0x13, 4) && !Bit(0x103, 4);
    } else if i == 5 {
      assert !Bit(0x3, 5) && !Bit(0x4, 5) && !Bit(0x13, 5) && !Bit(0x103, 5);
    } else if i == 6 {
      assert !Bit(0x3, 6) && !Bit(0x4, 6) && !Bit(0x13, 6) && !Bit(0x103, 6);
    } else if i == 7 {
      assert !Bit(0x3, 7) && !Bit(0x4, 7) && !Bit(0x13, 7) && !Bit(0x103, 7);
    } else {
      assert !Bit(0x3, 8) && !Bit(0x4, 8) && !Bit(0x13, 8) && Bit(0x103, 8);
    }
  }

  /** Busy(ALL) looks at status bit 2 and at nothing else. */
  lemma BusyAllIsBit2(status: u16)
    ensures StatusBusy(All, status) <==> !Bit(status, 2)
  {
    AndEqualsBits(status, 4, 4);
    forall i: nat ensures Bit(4, i) == (i == 2) {
      MaskBits(i);
    }
  }

  /** Busy(CMDQ) unless status bits 0 and 1 are both set. */
  lemma BusyCmdqBits(status: u16)
    ensures StatusBusy(Cmdq, status) <==> !(Bit(status, 0) && Bit(status, 1))
  {
    AndEqualsBits(status, 3, 3);
    forall i: nat ensures Bit(3, i) == (i < 2) {
      MaskBits(i);
    }
  }

  /** Busy(ISP) unless bits 0 and 1 are set and bit 8 is clear. */
  lemma BusyIspBits(status: u16)
    ensures StatusBusy(Isp, status) <==> !(Bit(status, 0) && Bit(status, 1) && !Bit(status, 8))
  {
    AndEqualsBits(status, 0x103, 3);
    forall i: nat ensures Bit(3, i) == (i < 2) && Bit(0x103, i) == (i < 2 || i == 8) {
      MaskBits(i);
    }
  }

  /** Busy(2D) unless bits 0 and 1 are set and bit 4 is clear. */
  lemma Busy2DBits(status: u16)
    ensures StatusBusy(TwoD, status) <==> !(Bit(status, 0) && Bit(status, 1) && !Bit(status, 4))
  {
    AndEqualsBits(status, 0x13, 3);
    forall i: nat ensures Bit(3, i) == (i < 2) && Bit(0x13, i) == (i < 2 || i == 4) {
      MaskBits(i);
    }
  }

  /** The wait loop stops exactly at a status word for which Busy answers FALSE. */
  lemma WaitDoneIffNotBusy(e: Engine, status: u16)
    ensures WaitDone(e, status) <==> !StatusBusy(e, status)
  {
  }

  // ---------------------------------------------------------------- reset, enable, disable

  /** The register and reset bit GLAMOEngineReset toggles; MPEG and ALL have none. */
  function ResetBit(e: Engine): (r: Option<(Reg, u16)>)
  {
    match e
    case Cmdq => Some((Clock2D, CLOCK_2D_CMDQ_RESET))
    case Isp => Some((ClockIsp, CLOCK_ISP2_RESET))
    case TwoD => Some((Clock2D, CLOCK_2D_RESET))
    case _ => None
  }

  /** The (register, bit group) pairs GLAMOEngineDisable clears, in the order it clears them. */
  function DisableGroups(e: Engine): seq<(Reg, u16)>
  {
    match e
    case Cmdq => [(Clock2D, CLOCK_2D_EN_M6CLK), (Hostbus2, HOSTBUS2_MMIO_EN_CMDQ)]
    case Isp => IspGroups()
    case TwoD => TwoDGroups()
    case _ => []
  }

  /** The (register, bit group) pairs GLAMOEngineEnable sets, in the order it sets them. */
  function EnableGroups(e: Engine): seq<(Reg, u16)>
  {
    match e
    case Cmdq => [(Clock2D, CLOCK_2D_EN_M6CLK), (Hostbus2, HOSTBUS2_MMIO_EN_CMDQ),
                  (ClockGen51, CLOCK_GEN51_EN_DIV_MCLK)]
    case Isp => IspGroups()
    case TwoD => TwoDGroups()
    case _ => []
  }

  function IspGroups(): seq<(Reg, u16)>
  {
    [(ClockIsp, Or16(CLOCK_ISP_EN_M2CLK, CLOCK_ISP_EN_I1CLK)),
     (ClockGen52, CLOCK_GEN52_EN_DIV_ICLK),
     (ClockGen51, CLOCK_GEN51_EN_DIV_JCLK),
     (Hostbus2, HOSTBUS2_MMIO_EN_ISP)]
  }

  function TwoDGroups(): seq<(Reg, u16)>
  {
    [(Clock2D, Or16(Or16(Or16(CLOCK_2D_EN_M7CLK, CLOCK_2D_EN_GCLK), CLOCK_2D_DG_M7CLK), CLOCK_2D_DG_GCLK)),
     (Hostbus2, HOSTBUS2_MMIO_EN_2D),
     (ClockGen51, CLOCK_GEN51_EN_DIV_GCLK)]
  }

  /** The register file after MMIOSetBitMask(reg, mask, val) for each pair in turn. */
  function ApplyGroups(regs: map<Reg, u16>, groups: seq<(Reg, u16)>, val: u16): map<Reg, u16>
    requires forall r: Reg :: r in regs
    ensures forall r: Reg :: r in ApplyGroups(regs, groups, val)
  {
    if groups == [] then regs
    else ApplyGroups(UpdateReg(regs, groups[0].0, groups[0].1, val), groups[1..], val)
  }

  /** The writes those calls make, in order. */
  function GroupWrites(regs: map<Reg, u16>, groups: seq<(Reg, u16)>, val: u16): seq<(Reg, u16)>
    requires forall r: Reg :: r in regs
  {
    if groups == [] then []
    else [(groups[0].0, BitMaskUpdate(regs[groups[0].0], groups[0].1, val))]
         + GroupWrites(UpdateReg(regs, groups[0].0, groups[0].1, val), groups[1..], val)
  }

  /** Registers that no pair names keep their value. */
  lemma {:induction false} ApplyGroupsUntouched(regs: map<Reg, u16>, groups: seq<(Reg, u16)>, val: u16, r: Reg)
    requires forall q: Reg :: q in regs
    requires forall k :: 0 <= k < |groups| ==> groups[k].0 != r
    ensures ApplyGroups(regs, groups, val)[r] == regs[r]
  {
    if groups != [] {
      ApplyGroupsUntouched(UpdateReg(regs, groups[0].0, groups[0].1, val), groups[1..], val, r);
    }
  }

  /** Each register named once ends as BitMaskUpdate of its old value. */
  lemma {:induction false} ApplyGroupsNamed(regs: map<Reg, u16>, groups: seq<(Reg, u16)>, val: u16, k: nat)
    requires forall q: Reg :: q in regs
    requires k < |groups|
    requires forall j :: 0 <= j < |groups| && j != k ==> groups[j].0 != groups[k].0
    ensures ApplyGroups(regs, groups, val)[groups[k].0] == BitMaskUpdate(regs[groups[k].0], groups[k].1, val)
  {
    var next := UpdateReg(regs, groups[0].0, groups[0].1, val);
    if k == 0 {
      ApplyGroupsUntouched(next, groups[1..], val, groups[0].0);
    } else {
      ApplyGroupsNamed(next, groups[1..], val, k - 1);
    }
  }

  lemma GroupsDistinct(e: Engine)
    ensures forall j, k :: 0 <= j < k < |EnableGroups(e)| ==> EnableGroups(e)[j].0 != EnableGroups(e)[k].0
    ensures forall j, k :: 0 <= j < k < |DisableGroups(e)| ==> DisableGroups(e)[j].0 != DisableGroups(e)[k].0
  {
  }

  /**
   * For ISP and 2D, Disable clears exactly the bit groups Enable sets: a register
   * either is left alone by both, or both name it with the same mask.
   */
  lemma EnableDisableSameBits(e: Engine)
    requires e == Isp || e == TwoD
    ensures EnableGroups(e) == DisableGroups(e)
    ensures forall regs: map<Reg, u16> | forall r: Reg :: r in regs ::
      ApplyGroups(ApplyGroups(regs, EnableGroups(e), 0xffff), DisableGroups(e), 0) == ApplyGroups(regs, DisableGroups(e), 0)
  {
    forall regs: map<Reg, u16> | forall r: Reg :: r in regs
      ensures ApplyGroups(ApplyGroups(regs, EnableGroups(e), 0xffff), DisableGroups(e), 0) == ApplyGroups(regs, DisableGroups(e), 0)
    {
      ReapplyWins(regs, DisableGroups(e), 0xffff, 0);
    }
  }

  /** Running the same groups twice: the second value wins on every register. */
  lemma ReapplyWins(regs: map<Reg, u16>, groups: seq<(Reg, u16)>, v1: u16, v2: u16)
    requires forall r: Reg :: r in regs
    requires forall j, k :: 0 <= j < k < |groups| ==> groups[j].0 != groups[k].0
    ensures ApplyGroups(ApplyGroups(regs, groups, v1), groups, v2) == ApplyGroups(regs, groups, v2)
  {
    var once := ApplyGroups(regs, groups, v1);
    var twice := ApplyGroups(once, groups, v2);
    var direct := ApplyGroups(regs, groups, v2);
    forall r: Reg ensures twice[r] == direct[r] {
      if k :| 0 <= k < |groups| && groups[k].0 == r {
        ApplyGroupsNamed(once, groups, v2, k);
        ApplyGroupsNamed(regs, groups, v1, k);
        ApplyGroupsNamed(regs, groups, v2, k);
        LaterWins(regs[r], groups[k].1, v1, v2);
      } else {
        ApplyGroupsUntouched(once, groups, v2, r);
        ApplyGroupsUntouched(regs, groups, v1, r);
        ApplyGroupsUntouched(regs, groups, v2, r);
      }
    }
    assert forall r: Reg :: r in twice && r in direct;
    MapsEqual(twice, direct);
  }

  /** Enable(CMDQ) also sets EN_DIV_MCLK in GEN5_1; Disable(CMDQ) leaves GEN5_1 alone. */
  lemma CmdqMclkStaysSet(regs: map<Reg, u16>)
    requires forall r: Reg :: r in regs
    ensures ApplyGroups(regs, DisableGroups(Cmdq), 0)[ClockGen51] == regs[ClockGen51]
    ensures ApplyGroups(ApplyGroups(regs, EnableGroups(Cmdq), 0xffff), DisableGroups(Cmdq), 0)[ClockGen51]
         == Or(regs[ClockGen51], CLOCK_GEN51_EN_DIV_MCLK)
  {
    ApplyGroupsUntouched(regs, DisableGroups(Cmdq), 0, ClockGen51);
    var en := ApplyGroups(regs, EnableGroups(Cmdq), 0xffff);
    ApplyGroupsUntouched(en, DisableGroups(Cmdq), 0, ClockGen51);
    ApplyGroupsNamed(regs, EnableGroups(Cmdq), 0xffff, 2);
    SetAll(regs[ClockGen51], CLOCK_GEN51_EN_DIV_MCLK);
  }

  /** Reset sets and then clears the reset bit: the net value has that bit cleared, nothing else changed. */
  lemma ResetNetEffect(cur: u16, bit: u16)
    ensures BitMaskUpdate(BitMaskUpdate(cur, bit, 0xffff), bit, 0) == AndNot(cur, bit)
  {
    LaterWins(cur, bit, 0xffff, 0);
    ClearAll(cur, bit);
  }

  /** GLAMOEngineReset (register path). */
  method Reset(g: GlamoRec, e: Engine)
    requires g.regBase != null ==> g.regBase.Valid()
    modifies g.regBase
    ensures g.regBase != null ==> g.regBase.Valid()
    ensures g.regBase == null || ResetBit(e).None? ==>
      g.regBase == null || (g.regBase.regs == old(g.regBase.regs) && g.regBase.trace == old(g.regBase.trace))
    ensures g.regBase != null && ResetBit(e).Some? ==>
      var (r, bit) := ResetBit(e).value;
      var cur := old(g.regBase.regs[r]);
      g.regBase.regs == old(g.regBase.regs)[r := AndNot(cur, bit)] &&
      g.regBase.trace == old(g.regBase.trace) + [(r, Or(cur, bit)), (r, AndNot(cur, bit))]
  {
    var mmio := g.regBase;
    if mmio == null {
      return;
    }
    var reg: Reg, mask: u16;
    match e {
      case Cmdq => reg, mask := Clock2D, CLOCK_2D_CMDQ_RESET;
      case Isp => reg, mask := ClockIsp, CLOCK_ISP2_RESET;
      case TwoD => reg, mask := Clock2D, CLOCK_2D_RESET;
      case _ => return;
    }
    ghost var cur := mmio.regs[reg];
    mmio.SetBitMask(reg, mask, 0xffff);
    mmio.SetBitMask(reg, mask, 0);
    SetAll(cur, mask);
    ResetNetEffect(cur, mask);
    ClearAll(Or(cur, mask), mask);
    LaterWins(cur, mask, 0xffff, 0);
  }

  /** Appending one pair to the groups appends one update and one write. */
  lemma {:induction false} ApplyGroupsSnoc(regs: map<Reg, u16>, groups: seq<(Reg, u16)>, r: Reg, mask: u16, val: u16)
    requires forall q: Reg :: q in regs
    ensures ApplyGroups(regs, groups + [(r, mask)], val) == UpdateReg(ApplyGroups(regs, groups, val), r, mask, val)
    ensures GroupWrites(regs, groups + [(r, mask)], val)
         == GroupWrites(regs, groups, val) + [(r, BitMaskUpdate(ApplyGroups(regs, groups, val)[r], mask, val))]
  {
    if groups == [] {
      assert groups + [(r, mask)] == [(r, mask)];
    } else {
      assert (groups + [(r, mask)])[1..] == groups[1..] + [(r, mask)];
      ApplyGroupsSnoc(UpdateReg(regs, groups[0].0, groups[0].1, val), groups[1..], r, mask, val);
    }
  }

  /** One MMIOSetBitMask call of an enable or disable sequence, with the bookkeeping of the calls so far. */
  method SetGroup(mmio: Mmio, ghost regs0: map<Reg, u16>, ghost trace0: seq<(Reg, u16)>,
                  ghost done: seq<(Reg, u16)>, r: Reg, mask: u16, val: u16)
    requires mmio.Valid() && forall q: Reg :: q in regs0
    requires mmio.regs == ApplyGroups(regs0, done, val)
    requires mmio.trace == trace0 + GroupWrites(regs0, done, val)
    modifies mmio
    ensures mmio.Valid()
    ensures mmio.regs == ApplyGroups(regs0, done + [(r, mask)], val)
    ensures mmio.trace == trace0 + GroupWrites(regs0, done + [(r, mask)], val)
  {
    mmio.SetBitMask(r, mask, val);
    ApplyGroupsSnoc(regs0, done, r, mask, val);
  }

  /** GLAMOEngineDisable (register path). */
  method Disable(g: GlamoRec, e: Engine)
    requires g.regBase != null ==> g.regBase.Valid()
    modifies g.regBase
    ensures g.regBase != null ==> g.regBase.Valid()
    ensures g.regBase != null ==>
      g.regBase.regs == ApplyGroups(old(g.regBase.regs), DisableGroups(e), 0) &&
      g.regBase.trace == old(g.regBase.trace) + GroupWrites(old(g.regBase.regs), DisableGroups(e), 0)
  {
    var mmio := g.regBase;
    if mmio == null {
      return;
    }
    ghost var r0, t0 := mmio.regs, mmio.trace;
    ghost var done: seq<(Reg, u16)> := [];
    match e {
      case Cmdq =>
        SetGroup(mmio, r0, t0, done, Clock2D, CLOCK_2D_EN_M6CLK, 0);
        done := done + [(Clock2D, CLOCK_2D_EN_M6CLK)];
        SetGroup(mmio, r0, t0, done, Hostbus2, HOSTBUS2_MMIO_EN_CMDQ, 0);
        done := done + [(Hostbus2, HOSTBUS2_MMIO_EN_CMDQ)];
        assert done == DisableGroups(Cmdq);
      case Isp =>
        SetGroup(mmio, r0, t0, done, ClockIsp, Or16(CLOCK_ISP_EN_M2CLK, CLOCK_ISP_EN_I1CLK), 0);
        done := done + [(ClockIsp, Or16(CLOCK_ISP_EN_M2CLK, CLOCK_ISP_EN_I1CLK))];
        SetGroup(mmio, r0, t0, done, ClockGen52, CLOCK_GEN52_EN_DIV_ICLK, 0);
        done := done + [(ClockGen52, CLOCK_GEN52_EN_DIV_ICLK)];
        SetGroup(mmio, r0, t0, done, ClockGen51, CLOCK_GEN51_EN_DIV_JCLK, 0);
        done := done + [(ClockGen51, CLOCK_GEN51_EN_DIV_JCLK)];
        SetGroup(mmio, r0, t0, done, Hostbus2, HOSTBUS2_MMIO_EN_ISP, 0);
        done := done + [(Hostbus2, HOSTBUS2_MMIO_EN_ISP)];
        assert done == DisableGroups(Isp);
      case TwoD =>
        SetGroup(mmio, r0, t0, done, Clock2D, TwoDGroups()[0].1, 0);
        done := done + [TwoDGroups()[0]];
        SetGroup(mmio, r0, t0, done, Hostbus2, HOSTBUS2_MMIO_EN_2D, 0);
        done := done + [(Hostbus2, HOSTBUS2_MMIO_EN_2D)];
        SetGroup(mmio, r0, t0, done, ClockGen51, CLOCK_GEN51_EN_DIV_GCLK, 0);
        done := done + [(ClockGen51, CLOCK_GEN51_EN_DIV_GCLK)];
        assert done == DisableGroups(TwoD);
      case _ =>
    }
  }

  /** GLAMOEngineEnable (register path). */
  method Enable(g: GlamoRec, e: Engine)
    requires g.regBase != null ==> g.regBase.Valid()
    modifies g.regBase
    ensures g.regBase != null ==> g.regBase.Valid()
    ensures g.regBase != null ==>
      g.regBase.regs == ApplyGroups(old(g.regBase.regs), EnableGroups(e), 0xffff) &&
      g.regBase.trace == old(g.regBase.trace) + GroupWrites(old(g.regBase.regs), EnableGroups(e), 0xffff)
  {
    var mmio := g.regBase;
    if mmio == null {
      return;
    }
    ghost var r0, t0 := mmio.regs, mmio.trace;
    ghost var done: seq<(Reg, u16)> := [];
    match e {
      case Cmdq =>
        SetGroup(mmio, r0, t0, done, Clock2D, CLOCK_2D_EN_M6CLK, 0xffff);
        done := done + [(Clock2D, CLOCK_2D_EN_M6CLK)];
        SetGroup(mmio, r0, t0, done, Hostbus2, HOSTBUS2_MMIO_EN_CMDQ, 0xffff);
        done := done + [(Hostbus2, HOSTBUS2_MMIO_EN_CMDQ)];
        SetGroup(mmio, r0, t0, done, ClockGen51, CLOCK_GEN51_EN_DIV_MCLK, 0xffff);
        done := done + [(ClockGen51, CLOCK_GEN51_EN_DIV_MCLK)];
        assert done == EnableGroups(Cmdq);
      case Isp =>
        SetGroup(mmio, r0, t0, done, ClockIsp, Or16(CLOCK_ISP_EN_M2CLK, CLOCK_ISP_EN_I1CLK), 0xffff);
        done := done + [(ClockIsp, Or16(CLOCK_ISP_EN_M2CLK, CLOCK_ISP_EN_I1CLK))];
        SetGroup(mmio, r0, t0, done, ClockGen52, CLOCK_GEN52_EN_DIV_ICLK, 0xffff);
        done := done + [(ClockGen52, CLOCK_GEN52_EN_DIV_ICLK)];
        SetGroup(mmio, r0, t0, done, ClockGen51, CLOCK_GEN51_EN_DIV_JCLK, 0xffff);
        done := done + [(ClockGen51, CLOCK_GEN51_EN_DIV_JCLK)];
        SetGroup(mmio, r0, t0, done, Hostbus2, HOSTBUS2_MMIO_EN_ISP, 0xffff);
        done := done + [(Hostbus2, HOSTBUS2_MMIO_EN_ISP)];
        assert done == EnableGroups(Isp);
      case TwoD =>
        SetGroup(mmio, r0, t0, done, Clock2D, TwoDGroups()[0].1, 0xffff);
        done := done + [TwoDGroups()[0]];
        SetGroup(mmio, r0, t0, done, Hostbus2, HOSTBUS2_MMIO_EN_2D, 0xffff);
        done := done + [(Hostbus2, HOSTBUS2_MMIO_EN_2D)];
        SetGroup(mmio, r0, t0, done, ClockGen51, CLOCK_GEN51_EN_DIV_GCLK, 0xffff);
        done := done + [(ClockGen51, CLOCK_GEN51_EN_DIV_GCLK)];
        assert done == EnableGroups(TwoD);
      case _ =>
    }
  }
}
