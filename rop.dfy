/**
 * The sixteen raster operations of the X11 graphics context (GXclear .. GXset) and
 * the 8-bit ROP codes of the 2D engine.  Both 2D front ends (glamo-draw.c and
 * glamo-kms-exa.c) translate the GC function into a ROP code by table lookup; a ROP
 * code is the truth table of the operation, evaluated bitwise on fixed source,
 * pattern and destination masks.
 */
module Rop {
  import opened Bits

  /** The value of GC function alu for one source bit and one destination bit. */
  predicate GcFunction(alu: nat, src: bool, dst: bool)
    requires alu < 16
  {
    match alu
    case 0 => false                  // GXclear
    case 1 => src && dst             // GXand
    case 2 => src && !dst            // GXandReverse
    case 3 => src                    // GXcopy
    case 4 => !src && dst            // GXandInverted
    case 5 => dst                    // GXnoop
    case 6 => src != dst             // GXxor
    case 7 => src || dst             // GXor
    case 8 => !src && !dst           // GXnor
    case 9 => src == dst             // GXequiv
    case 10 => !dst                  // GXinvert
    case 11 => src || !dst           // GXorReverse
    case 12 => !src                  // GXcopyInverted
    case 13 => !src || dst           // GXorInverted
    case 14 => !src || !dst          // GXnand
    case 15 => true                  // GXset
  }

  /**
   * The X protocol numbers the functions by their truth tables: bit (2*(1-s) + (1-d))
   * of alu is the result for source s and destination d.
   */
  lemma GcFunctionCode(alu: nat, src: bool, dst: bool)
    requires alu < 16
    ensures GcFunction(alu, src, dst) == Bit(alu, (if src then 0 else 2) + (if dst then 0 else 1))
  {
    assert Bit(alu, 1) == Bit(alu / 2, 0);
    assert Bit(alu, 2) == Bit(alu / 2 / 2, 0);
    assert Bit(alu, 3) == Bit(alu / 2 / 2 / 2, 0);
  }

  /** The width-bit truth table of alu over a source mask and a destination mask. */
  function TruthTable(alu: nat, src: nat, dst: nat, width: nat): nat
    requires alu < 16
  {
    if width == 0 then 0
    else B(alu, src % 2 == 1, dst % 2 == 1) + 2 * TruthTable(alu, src / 2, dst / 2, width - 1)
  }

  /** 1 when GC function alu yields a set bit for src and dst, else 0. */
  function B(alu: nat, src: bool, dst: bool): nat
    requires alu < 16
  {
    if GcFunction(alu, src, dst) then 1 else 0
  }

  /**
   * Over source 0xF0 and destination 0xAA each of the four source/destination bit
   * combinations occurs at two bit positions.
   */
  lemma SolidMasks(alu: nat)
    requires alu < 16
    ensures TruthTable(alu, 0xF0, 0xAA, 8) ==
      0x05 * B(alu, false, false) + 0x0a * B(alu, false, true) + 0x50 * B(alu, true, false) + 0xa0 * B(alu, true, true)
  {
    assert TruthTable(alu, 0xF0, 0xAA, 8) == B(alu, false, false) + 2 * TruthTable(alu, 0x78, 0x55, 7);
    assert TruthTable(alu, 0x78, 0x55, 7) == B(alu, false, true) + 2 * TruthTable(alu, 0x3C, 0x2A, 6);
    assert TruthTable(alu, 0x3C, 0x2A, 6) == B(alu, false, false) + 2 * TruthTable(alu, 0x1E, 0x15, 5);
    assert TruthTable(alu, 0x1E, 0x15, 5) == B(alu, false, true) + 2 * TruthTable(alu, 0x0F, 0x0A, 4);
    assert TruthTable(alu, 0x0F, 0x0A, 4) == B(alu, true, false) + 2 * TruthTable(alu, 0x07, 0x05, 3);
    assert TruthTable(alu, 0x07, 0x05, 3) == B(alu, true, true) + 2 * TruthTable(alu, 0x03, 0x02, 2);
    assert TruthTable(alu, 0x03, 0x02, 2) == B(alu, true, false) + 2 * TruthTable(alu, 0x01, 0x01, 1);
    assert TruthTable(alu, 0x01, 0x01, 1) == B(alu, true, true) + 2 * TruthTable(alu, 0, 0, 0);
  }

  /** The same over source 0xCC and destination 0xAA. */
  lemma BltMasks(alu: nat)
    requires alu < 16
    ensures TruthTable(alu, 0xCC, 0xAA, 8) ==
      0x11 * B(alu, false, false) + 0x22 * B(alu, false, true) + 0x44 * B(alu, true, false) + 0x88 * B(alu, true, true)
  {
    assert TruthTable(alu, 0xCC, 0xAA, 8) == B(alu, false, false) + 2 * TruthTable(alu, 0x66, 0x55, 7);
    assert TruthTable(alu, 0x66, 0x55, 7) == B(alu, false, true) + 2 * TruthTable(alu, 0x33, 0x2A, 6);
    assert TruthTable(alu, 0x33, 0x2A, 6) == B(alu, true, false) + 2 * TruthTable(alu, 0x19, 0x15, 5);
    assert TruthTable(alu, 0x19, 0x15, 5) == B(alu, true, true) + 2 * TruthTable(alu, 0x0C, 0x0A, 4);
    assert TruthTable(alu, 0x0C, 0x0A, 4) == B(alu, false, false) + 2 * TruthTable(alu, 0x06, 0x05, 3);
    assert TruthTable(alu, 0x06, 0x05, 3) == B(alu, false, true) + 2 * TruthTable(alu, 0x03, 0x02, 2);
    assert TruthTable(alu, 0x03, 0x02, 2) == B(alu, true, false) + 2 * TruthTable(alu, 0x01, 0x01, 1);
    assert TruthTable(alu, 0x01, 0x01, 1) == B(alu, true, true) + 2 * TruthTable(alu, 0, 0, 0);
  }

  /** Bit i of a truth table is the function applied to bit i of the masks. */
  lemma {:induction false} TruthTableBit(alu: nat, src: nat, dst: nat, width: nat, i: nat)
    requires alu < 16 && i < width
    ensures Bit(TruthTable(alu, src, dst, width), i) == GcFunction(alu, Bit(src, i), Bit(dst, i))
  {
    if i > 0 {
      TruthTableBit(alu, src / 2, dst / 2, width - 1, i - 1);
    }
  }

  /**
   * GLAMOSolidRop: the ROP code of each GC function for a solid fill.  glamo-draw.c and
   * glamo-kms-exa.c each hold an identical copy of this table.
   */
  const GLAMO_SOLID_ROP: seq<u8> :=
    [0x00, 0xa0, 0x50, 0xf0, 0x0a, 0xaa, 0x5a, 0xfa, 0x05, 0xa5, 0x55, 0xf5, 0x0f, 0xaf, 0x5f, 0xff]

  /** GLAMOBltRop: the ROP code of each GC function for a blit; also held in both files. */
  const GLAMO_BLT_ROP: seq<u8> :=
    [0x00, 0x88, 0x44, 0xcc, 0x22, 0xaa, 0x66, 0xee, 0x11, 0x99, 0x55, 0xdd, 0x33, 0xbb, 0x77, 0xff]

  /** Each fill code, by the four source/destination combinations of its GC function. */
  lemma SolidRopCodes(alu: nat)
    requires alu < 16
    ensures GLAMO_SOLID_ROP[alu] ==
      0x05 * B(alu, false, false) + 0x0a * B(alu, false, true) + 0x50 * B(alu, true, false) + 0xa0 * B(alu, true, true)
  {
    match alu
    case 0 => case 1 => case 2 => case 3 => case 4 => case 5 => case 6 => case 7 =>
    case 8 => case 9 => case 10 => case 11 => case 12 => case 13 => case 14 => case 15 =>
  }

  /** Each blit code, by the four source/destination combinations of its GC function. */
  lemma BltRopCodes(alu: nat)
    requires alu < 16
    ensures GLAMO_BLT_ROP[alu] ==
      0x11 * B(alu, false, false) + 0x22 * B(alu, false, true) + 0x44 * B(alu, true, false) + 0x88 * B(alu, true, true)
  {
    match alu
    case 0 => case 1 => case 2 => case 3 => case 4 => case 5 => case 6 => case 7 =>
    case 8 => case 9 => case 10 => case 11 => case 12 => case 13 => case 14 => case 15 =>
  }

  /** Each fill code is the truth table of its GC function over pattern 0xF0 and destination 0xAA. */
  lemma SolidRopTruth(alu: nat)
    requires alu < 16
    ensures GLAMO_SOLID_ROP[alu] == TruthTable(alu, 0xF0, 0xAA, 8)
  {
    SolidMasks(alu);
    SolidRopCodes(alu);
  }

  /** Each blit code is the truth table of its GC function over source 0xCC and destination 0xAA. */
  lemma BltRopTruth(alu: nat)
    requires alu < 16
    ensures GLAMO_BLT_ROP[alu] == TruthTable(alu, 0xCC, 0xAA, 8)
  {
    BltMasks(alu);
    BltRopCodes(alu);
  }

  /** Bit by bit: bit i of a fill code is the GC function of bit i of the pattern and destination masks. */
  lemma SolidRopBit(alu: nat, i: nat)
    requires alu < 16 && i < 8
    ensures Bit(GLAMO_SOLID_ROP[alu], i) == GcFunction(alu, Bit(0xF0, i), Bit(0xAA, i))
  {
    SolidRopTruth(alu);
    TruthTableBit(alu, 0xF0, 0xAA, 8, i);
  }

  /** Bit by bit: bit i of a blit code is the GC function of bit i of the source and destination masks. */
  lemma BltRopBit(alu: nat, i: nat)
    requires alu < 16 && i < 8
    ensures Bit(GLAMO_BLT_ROP[alu], i) == GcFunction(alu, Bit(0xCC, i), Bit(0xAA, i))
  {
    BltRopTruth(alu);
    TruthTableBit(alu, 0xCC, 0xAA, 8, i);
  }

  /** The 2D engine's op word: the ROP code in the high byte, the low byte clear. */
  function OpWord(rop: u8): (r: u16)
    ensures r / 0x100 == rop && r % 0x100 == 0
    ensures r == Shl(rop, 8)
  {
    Pow2Values();
    rop * 0x100
  }
}
