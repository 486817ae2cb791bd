/**
 * The shared driver state of glamo.h: the memory-mapped register file, the
 * read-modify-write helper MMIOSetBitMask, the MemBuf staging buffer and the
 * per-screen GlamoRec record.
 *
 * Register offsets and bit values are defined in glamo-regs.h, which is not part
 * of this model; registers are therefore named by the `Reg` datatype and bit
 * groups are constants without a value.
 */
module Glamo {
  import opened Bits

  datatype Option<T> = None | Some(value: T)

  /** The registers the core reads or writes (GLAMO_REG_* in glamo-regs.h). */
  datatype Reg =
    | Clock2D | ClockIsp | ClockGen51 | ClockGen52 | Hostbus2
    | CmdqStatus | CmdqControl | CmdqLen
    | CmdqBaseAddrL | CmdqBaseAddrH
    | CmdqWriteAddrL | CmdqWriteAddrH
    | CmdqReadAddrL | CmdqReadAddrH

  /** The value MMIOSetBitMask leaves in a register that held `cur`: (cur & ~mask) | (val & mask). */
  function BitMaskUpdate(cur: u16, mask: u16, val: u16): u16
  {
    Or16(AndNot(cur, mask), And(val, mask))
  }

  lemma {:induction false} LowOnes(n: nat, i: nat)
    ensures Bit(Pow2(n) - 1, i) == (i < n)
  {
    if n == 0 {
      BitOfZero(i);
    } else if i > 0 {
      assert (Pow2(n) - 1) / 2 == Pow2(n - 1) - 1;
      LowOnes(n - 1, i - 1);
    }
  }

  /** Inside the mask every bit comes from val; outside it every bit is the old one. */
  lemma BitMaskUpdateBit(cur: u16, mask: u16, val: u16, i: nat)
    ensures Bit(BitMaskUpdate(cur, mask, val), i) == (if Bit(mask, i) then Bit(val, i) else Bit(cur, i))
  {
    BitOr(AndNot(cur, mask), And(val, mask), i);
    BitAndNot(cur, mask, i);
    BitAnd(val, mask, i);
  }

  lemma Idempotent(cur: u16, mask: u16, val: u16)
    ensures BitMaskUpdate(BitMaskUpdate(cur, mask, val), mask, val) == BitMaskUpdate(cur, mask, val)
  {
    var once := BitMaskUpdate(cur, mask, val);
    forall i: nat ensures Bit(BitMaskUpdate(once, mask, val), i) == Bit(once, i) {
      BitMaskUpdateBit(once, mask, val, i);
      BitMaskUpdateBit(cur, mask, val, i);
    }
    BitsEqual(BitMaskUpdate(once, mask, val), once);
  }

  /** Two updates of the same mask: the second one wins. */
  lemma LaterWins(cur: u16, mask: u16, v1: u16, v2: u16)
    ensures BitMaskUpdate(BitMaskUpdate(cur, mask, v1), mask, v2) == BitMaskUpdate(cur, mask, v2)
  {
    var first := BitMaskUpdate(cur, mask, v1);
    forall i: nat ensures Bit(BitMaskUpdate(first, mask, v2), i) == Bit(BitMaskUpdate(cur, mask, v2), i) {
      BitMaskUpdateBit(first, mask, v2, i);
      BitMaskUpdateBit(cur, mask, v1, i);
      BitMaskUpdateBit(cur, mask, v2, i);
    }
    BitsEqual(BitMaskUpdate(first, mask, v2), BitMaskUpdate(cur, mask, v2));
  }

  /** Updates of disjoint masks commute. */
  lemma DisjointCommute(cur: u16, m1: u16, v1: u16, m2: u16, v2: u16)
    requires And(m1, m2) == 0
    ensures BitMaskUpdate(BitMaskUpdate(cur, m1, v1), m2, v2) == BitMaskUpdate(BitMaskUpdate(cur, m2, v2), m1, v1)
  {
    var a := BitMaskUpdate(BitMaskUpdate(cur, m1, v1), m2, v2);
    var b := BitMaskUpdate(BitMaskUpdate(cur, m2, v2), m1, v1);
    forall i: nat ensures Bit(a, i) == Bit(b, i) {
      BitAnd(m1, m2, i);
      BitOfZero(i);
      BitMaskUpdateBit(BitMaskUpdate(cur, m1, v1), m2, v2, i);
      BitMaskUpdateBit(cur, m1, v1, i);
      BitMaskUpdateBit(BitMaskUpdate(cur, m2, v2), m1, v1, i);
      BitMaskUpdateBit(cur, m2, v2, i);
    }
    BitsEqual(a, b);
  }

  /** val = 0xffff sets every bit of the mask: the result is cur | mask. */
  lemma SetAll(cur: u16, mask: u16)
    ensures BitMaskUpdate(cur, mask, 0xffff) == Or(cur, mask)
  {
    Pow2Values();
    forall i: nat ensures Bit(BitMaskUpdate(cur, mask, 0xffff), i) == Bit(Or(cur, mask), i) {
      BitMaskUpdateBit(cur, mask, 0xffff, i);
      BitOr(cur, mask, i);
      LowOnes(16, i);
      if i >= 16 {
        BitAbove(mask, 16, i);
      }
    }
    BitsEqual(BitMaskUpdate(cur, mask, 0xffff), Or(cur, mask));
  }

  /** val = 0 clears every bit of the mask: the result is cur & ~mask. */
  lemma ClearAll(cur: u16, mask: u16)
    ensures BitMaskUpdate(cur, mask, 0) == AndNot(cur, mask)
  {
    forall i: nat ensures Bit(BitMaskUpdate(cur, mask, 0), i) == Bit(AndNot(cur, mask), i) {
      BitMaskUpdateBit(cur, mask, 0, i);
      BitAndNot(cur, mask, i);
      BitOfZero(i);
    }
    BitsEqual(BitMaskUpdate(cur, mask, 0), AndNot(cur, mask));
  }

  /** Writing back the masked bits a register already has changes nothing. */
  lemma RewriteSame(cur: u16, mask: u16)
    ensures BitMaskUpdate(cur, mask, cur) == cur
  {
    forall i: nat ensures Bit(BitMaskUpdate(cur, mask, cur), i) == Bit(cur, i) {
      BitMaskUpdateBit(cur, mask, cur, i);
    }
    BitsEqual(BitMaskUpdate(cur, mask, cur), cur);
  }

  /** Clearing the mask bits and then setting them leaves cur | mask. */
  lemma ClearThenSet(cur: u16, mask: u16)
    ensures BitMaskUpdate(BitMaskUpdate(cur, mask, 0), mask, 0xffff) == Or(cur, mask)
  {
    LaterWins(cur, mask, 0, 0xffff);
    SetAll(cur, mask);
  }

  /** A mask update of a map of registers, and the sequence of such updates a routine performs. */
  function UpdateReg(regs: map<Reg, u16>, r: Reg, mask: u16, val: u16): map<Reg, u16>
    requires r in regs
  {
    regs[r := BitMaskUpdate(regs[r], mask, val)]
  }

  /** Two register files that agree on every register are equal. */
  lemma MapsEqual(a: map<Reg, u16>, b: map<Reg, u16>)
    requires forall r: Reg :: r in a && r in b && a[r] == b[r]
    ensures a == b
  {
    assert a.Keys == b.Keys;
  }

  /** The register file: a value for every register, and the ghost history of every write. */
  class Mmio {
    var regs: map<Reg, u16>
    ghost var trace: seq<(Reg, u16)>

    ghost predicate Valid()
      reads this
    {
      forall r: Reg :: r in regs
    }

    constructor (initial: map<Reg, u16>)
      requires forall r: Reg :: r in initial
      ensures Valid() && regs == initial && trace == []
    {
      regs := initial;
      trace := [];
    }

    /** MMIO_IN16 */
    function In16(r: Reg): u16
      reads this
      requires Valid()
    {
      regs[r]
    }

    /** MMIO_OUT16 */
    method Out16(r: Reg, v: u16)
      requires Valid()
      modifies this
      ensures Valid()
      ensures regs == old(regs)[r := v]
      ensures trace == old(trace) + [(r, v)]
    {
      regs := regs[r := v];
      trace := trace + [(r, v)];
    }

    /** MMIOSetBitMask: one read, one write of (old & ~mask) | (val & mask). */
    method SetBitMask(r: Reg, mask: u16, val: u16)
      requires Valid()
      modifies this
      ensures Valid()
      ensures regs == old(regs)[r := BitMaskUpdate(old(regs[r]), mask, val)]
      ensures trace == old(trace) + [(r, BitMaskUpdate(old(regs[r]), mask, val))]
    {
      var v := And(val, mask);
      var tmp := In16(r);
      tmp := AndNot(tmp, mask);
      tmp := Or16(tmp, v);
      Out16(r, tmp);
    }
  }

  /** MemBuf: `size` bytes of staging storage of which the first `used` are filled. */
  class MemBuf {
    var size: int
    var used: int
    var data: array<u8>

    ghost predicate Valid()
      reads this
    {
      0 <= used && size == data.Length
    }

    /** A zero-filled buffer of n bytes, as xcalloc returns it. */
    constructor (n: nat)
      ensures Valid() && size == n && used == 0 && fresh(data)
      ensures data[..] == seq(n, _ => 0)
    {
      size := n;
      used := 0;
      data := new u8[n](_ => 0);
    }
  }

  // ---------------------------------------------------------------- 16-bit entries in byte buffers

  /** A CARD16 store through a byte buffer on the little-endian target: low byte first. */
  function LE16(v: u16): (r: seq<u8>)
    ensures |r| == 2 && r[0] as int + 0x100 * r[1] as int == v
  {
    [v % 0x100, v / 0x100]
  }

  /** The bytes of a sequence of 16-bit entries stored one after another. */
  function Encode(s: seq<u16>): (r: seq<u8>)
    ensures |r| == 2 * |s|
  {
    if s == [] then [] else LE16(s[0]) + Encode(s[1..])
  }

  /** The 16-bit entries a byte buffer holds, read back two bytes at a time. */
  function Decode(b: seq<u8>): (r: seq<u16>)
    ensures |r| == |b| / 2
  {
    if |b| < 2 then [] else [b[0] as int + 0x100 * b[1] as int] + Decode(b[2..])
  }

  lemma {:induction false} EncodeAppend(a: seq<u16>, b: seq<u16>)
    ensures Encode(a + b) == Encode(a) + Encode(b)
  {
    if a != [] {
      assert (a + b)[0] == a[0] && (a + b)[1..] == a[1..] + b;
      EncodeAppend(a[1..], b);
      assert Encode(a + b) == LE16(a[0]) + Encode(a[1..] + b);
    } else {
      assert a + b == b;
    }
  }

  /** Reading back what was stored gives the entries again. */
  lemma {:induction false} DecodeEncode(s: seq<u16>)
    ensures Decode(Encode(s)) == s
  {
    if s != [] {
      assert Encode(s)[2..] == Encode(s[1..]);
      DecodeEncode(s[1..]);
    }
  }

  /** *(CARD16 *)(data + off) = v */
  method Store16(data: array<u8>, off: nat, v: u16)
    requires off + 2 <= data.Length
    modifies data
    ensures data[..] == old(data[..])[off := LE16(v)[0]][off + 1 := LE16(v)[1]]
  {
    data[off] := v % 0x100;
    data[off + 1] := v / 0x100;
  }

  // ---------------------------------------------------------------- the C library routines the core calls

  /** memcpy(dst + dOff, src + sOff, n) between two distinct buffers. */
  method MemCpy(dst: array<u8>, dOff: nat, src: array<u8>, sOff: nat, n: nat)
    requires dst != src
    requires dOff + n <= dst.Length && sOff + n <= src.Length
    modifies dst
    ensures dst[..] == old(dst[..dOff]) + src[sOff..sOff + n] + old(dst[dOff + n..])
  {
    forall k | dOff <= k < dOff + n {
      dst[k] := src[sOff + k - dOff];
    }
    assert dst[..] == old(dst[..dOff]) + src[sOff..sOff + n] + old(dst[dOff + n..]);
  }

  /** s with n bytes zeroed from off. */
  function Zeroed(s: seq<u8>, off: nat, n: nat): (r: seq<u8>)
    requires off + n <= |s|
    ensures |r| == |s|
  {
    s[..off] + seq(n, _ => 0) + s[off + n..]
  }

  lemma ZeroedAt(s: seq<u8>, off: nat, n: nat, j: nat)
    requires off + n <= |s| && j < |s|
    ensures Zeroed(s, off, n)[j] == if off <= j < off + n then 0 else s[j]
  {
  }

  /** memset(dst + off, 0, n). */
  method MemSet(dst: array<u8>, off: nat, n: nat)
    requires off + n <= dst.Length
    modifies dst
    ensures dst[..] == Zeroed(old(dst[..]), off, n)
  {
    forall k | off <= k < off + n {
      dst[k] := 0;
    }
    assert dst[..] == Zeroed(old(dst[..]), off, n);
  }

  /** The fields of the EXA driver record that GLAMODrawExaInit sets, other than its entry points. */
  class ExaDriver {
    var memoryBase: nat
    var memorySize: int
    var offScreenBase: int
    var pixmapOffsetAlign: int
    var pixmapPitchAlign: int
    var maxX: int
    var maxY: int
    var offscreenPixmaps: bool

    /** exaDriverAlloc: a zero-filled record. */
    constructor ()
      ensures memoryBase == 0 && memorySize == 0 && offScreenBase == 0
      ensures pixmapOffsetAlign == 0 && pixmapPitchAlign == 0 && maxX == 0 && maxY == 0 && !offscreenPixmaps
    {
      memoryBase, memorySize, offScreenBase := 0, 0, 0;
      pixmapOffsetAlign, pixmapPitchAlign, maxX, maxY := 0, 0, 0, 0;
      offscreenPixmaps := false;
    }
  }

  /** The fields of GlamoRec that the core reads or writes. */
  class GlamoRec {
    var regBase: Mmio?
    /** fbstart, as an address */
    var fbstart: nat
    var exa: ExaDriver?
    var ring: array?<u8>
    var ringStart: nat
    var ringLen: nat
    var cmdQueue: MemBuf?
    var savedClock2D: u16
    var savedClockIsp: u16
    var savedClockGen51: u16
    var savedClockGen52: u16
    var savedHostbus2: u16
    var colormap: array?<u16>
    /** Every byte the ring dispatcher has copied into the ring, in order. */
    ghost var submitted: seq<u8>

    /** The record as xnfcalloc returns it: every pointer null, every number 0. */
    constructor ()
      ensures regBase == null && ring == null && cmdQueue == null && colormap == null && exa == null
      ensures fbstart == 0 && ringStart == 0 && ringLen == 0
      ensures savedClock2D == 0 && savedClockIsp == 0 && savedClockGen51 == 0
      ensures savedClockGen52 == 0 && savedHostbus2 == 0 && submitted == []
    {
      regBase := null;
      fbstart := 0;
      exa := null;
      ring := null;
      ringStart := 0;
      ringLen := 0;
      cmdQueue := null;
      savedClock2D, savedClockIsp, savedClockGen51, savedClockGen52, savedHostbus2 := 0, 0, 0, 0, 0;
      colormap := null;
      submitted := [];
    }
  }
}
