/**
 * What the two 2D front ends (glamo-draw.c through the ring, glamo-kms-exa.c through
 * the kernel) have in common: the 2D engine's register offsets, the conversions C
 * applies when an int or a Pixel is stored as a 16-bit entry, the 11-bit pitch field,
 * the register programs of a fill and a blit, and the pixmap state they read.
 *
 * The register offsets are defined in glamo-regs.h, which is not part of this model:
 * they are constants without a value, and nothing assumes any relation between them
 * (not even that an ADDRH register follows its ADDRL register).
 */
module TwoD {
  import opened Bits
  import opened Glamo
  import Drm

  const REG_2D_SRC_X: u16
  const REG_2D_SRC_Y: u16
  const REG_2D_SRC_ADDRL: u16
  const REG_2D_SRC_ADDRH: u16
  const REG_2D_SRC_PITCH: u16
  const REG_2D_DST_X: u16
  const REG_2D_DST_Y: u16
  const REG_2D_DST_ADDRL: u16
  const REG_2D_DST_ADDRH: u16
  const REG_2D_DST_PITCH: u16
  const REG_2D_DST_HEIGHT: u16
  const REG_2D_RECT_WIDTH: u16
  const REG_2D_RECT_HEIGHT: u16
  const REG_2D_PAT_FG: u16
  const REG_2D_COMMAND2: u16
  const REG_2D_COMMAND3: u16
  const REG_2D_ID1: u16
  const REG_2D_ID2: u16

  lemma ModOfMod(x: int)
    ensures (x % 0x1_0000) % 0x800 == x % 0x800
  {
    var q := x / 0x1_0000;
    assert x == 0x1_0000 * q + x % 0x1_0000;
    assert x % 0x1_0000 == x - 0x800 * (32 * q);
  }

  /** The pitch field: the pitch stored as CARD16, and with 0x7ff: the stride modulo 2048. */
  function Pitch11(devKind: int): (r: u16)
    ensures r < 0x800 && r == devKind % 0x800
  {
    Pow2Values();
    AndLowMask(U16(devKind), 11);
    ModOfMod(devKind);
    And(U16(devKind), 0x7ff)
  }

  /** The rectangle of a solid fill: DST_X, DST_Y, RECT_WIDTH, RECT_HEIGHT, then COMMAND3 starts it. */
  function SolidRect(x1: int, y1: int, x2: int, y2: int): (r: seq<u16>)
    ensures |r| == 10
  {
    [REG_2D_DST_X, U16(x1), REG_2D_DST_Y, U16(y1),
     REG_2D_RECT_WIDTH, U16(x2 - x1), REG_2D_RECT_HEIGHT, U16(y2 - y1),
     REG_2D_COMMAND3, 0]
  }

  /** The rectangles of a blit: source and destination corners, size, then COMMAND3. */
  function CopyRect(srcX: int, srcY: int, dstX: int, dstY: int, width: int, height: int): (r: seq<u16>)
    ensures |r| == 14
  {
    [REG_2D_SRC_X, U16(srcX), REG_2D_SRC_Y, U16(srcY),
     REG_2D_DST_X, U16(dstX), REG_2D_DST_Y, U16(dstY),
     REG_2D_RECT_WIDTH, U16(width), REG_2D_RECT_HEIGHT, U16(height),
     REG_2D_COMMAND3, 0]
  }

  /** The end of both set-ups: the op word in COMMAND2, and ID1 = ID2 = 0. */
  function OpTail(op: u16): (r: seq<u16>)
    ensures |r| == 6
    ensures Program(r, [REG_2D_COMMAND2, REG_2D_ID1, REG_2D_ID2]) && r[1] == op && r[3] == 0 && r[5] == 0
  {
    [REG_2D_COMMAND2, op, REG_2D_ID1, 0, REG_2D_ID2, 0]
  }

  /**
   * The set-up entries of a fill after its destination address (a relocation in the KMS
   * front end, the two address registers in the other): pitch, height, colour, op.
   */
  function SolidSetup(pitch: u16, height: u16, fg: u16, op: u16): (r: seq<u16>)
    ensures Program(r, [REG_2D_DST_PITCH, REG_2D_DST_HEIGHT, REG_2D_PAT_FG, REG_2D_COMMAND2, REG_2D_ID1, REG_2D_ID2])
    ensures r[1] == pitch && r[3] == height && r[5] == fg && r[7] == op && r[9] == 0 && r[11] == 0
  {
    [REG_2D_DST_PITCH, pitch, REG_2D_DST_HEIGHT, height, REG_2D_PAT_FG, fg] + OpTail(op)
  }

  /** The pairs both PrepareSolid entry points add one by one make up SolidSetup. */
  lemma SolidSetupPairs(e: seq<u16>, pitch: u16, height: u16, fg: u16, op: u16)
    ensures e + [REG_2D_DST_PITCH, pitch] + [REG_2D_DST_HEIGHT, height] + [REG_2D_PAT_FG, fg] +
      [REG_2D_COMMAND2, op] + [REG_2D_ID1, 0] + [REG_2D_ID2, 0] == e + SolidSetup(pitch, height, fg, op)
  {
  }

  /** A sequence of 16-bit entries that alternates register and value, with the registers given. */
  predicate Program(entries: seq<u16>, regs: seq<u16>)
  {
    |entries| == 2 * |regs| && forall i :: 0 <= i < |regs| ==> entries[2 * i] == regs[i]
  }

  /** Two register programs one after the other form a program over both register lists. */
  lemma ProgramAppend(a: seq<u16>, ra: seq<u16>, b: seq<u16>, rb: seq<u16>)
    requires Program(a, ra) && Program(b, rb)
    ensures Program(a + b, ra + rb)
  {
    forall i | 0 <= i < |ra + rb|
      ensures (a + b)[2 * i] == (ra + rb)[i]
    {
      if i >= |ra| {
        assert (a + b)[2 * i] == b[2 * (i - |ra|)];
      }
    }
  }

  /** The pairs a fill adds one by one make up SolidRect. */
  lemma SolidRectPairs(e: seq<u16>, x1: int, y1: int, x2: int, y2: int)
    ensures e + [REG_2D_DST_X, U16(x1)] + [REG_2D_DST_Y, U16(y1)] + [REG_2D_RECT_WIDTH, U16(x2 - x1)] +
      [REG_2D_RECT_HEIGHT, U16(y2 - y1)] + [REG_2D_COMMAND3, 0] == e + SolidRect(x1, y1, x2, y2)
  {
  }

  /** The pairs a blit adds one by one make up CopyRect. */
  lemma CopyRectPairs(e: seq<u16>, srcX: int, srcY: int, dstX: int, dstY: int, width: int, height: int)
    ensures e + [REG_2D_SRC_X, U16(srcX)] + [REG_2D_SRC_Y, U16(srcY)] + [REG_2D_DST_X, U16(dstX)] +
      [REG_2D_DST_Y, U16(dstY)] + [REG_2D_RECT_WIDTH, U16(width)] + [REG_2D_RECT_HEIGHT, U16(height)] +
      [REG_2D_COMMAND3, 0] == e + CopyRect(srcX, srcY, dstX, dstY, width, height)
  {
  }

  lemma SolidRectProgram(x1: int, y1: int, x2: int, y2: int)
    ensures Program(SolidRect(x1, y1, x2, y2),
      [REG_2D_DST_X, REG_2D_DST_Y, REG_2D_RECT_WIDTH, REG_2D_RECT_HEIGHT, REG_2D_COMMAND3])
    ensures SolidRect(x1, y1, x2, y2)[5] == U16(x2 - x1) && SolidRect(x1, y1, x2, y2)[7] == U16(y2 - y1)
  {
  }

  lemma CopyRectProgram(srcX: int, srcY: int, dstX: int, dstY: int, width: int, height: int)
    ensures Program(CopyRect(srcX, srcY, dstX, dstY, width, height),
      [REG_2D_SRC_X, REG_2D_SRC_Y, REG_2D_DST_X, REG_2D_DST_Y, REG_2D_RECT_WIDTH, REG_2D_RECT_HEIGHT, REG_2D_COMMAND3])
  {
  }

  /** struct glamo_exa_pixmap_priv: the buffer object backing a pixmap, if any. */
  class PixmapPriv {
    var bo: Option<Drm.Bo>

    constructor (bo: Option<Drm.Bo>)
      ensures this.bo == bo
    {
      this.bo := bo;
    }
  }

  /** The parts of a PixmapRec the front ends read or write. */
  class Pixmap {
    var bitsPerPixel: u8
    var depth: u8
    var width: u16
    var height: u16
    var devKind: int
    /** exaGetPixmapOffset */
    var offset: nat
    /** exaGetPixmapDriverPrivate */
    var priv: PixmapPriv?
    /** devPrivate.ptr, 0 for NULL */
    var devPrivatePtr: nat

    constructor (bitsPerPixel: u8, depth: u8, width: u16, height: u16, devKind: int, offset: nat, priv: PixmapPriv?)
      ensures this.bitsPerPixel == bitsPerPixel && this.depth == depth && this.width == width
      ensures this.height == height && this.devKind == devKind && this.offset == offset
      ensures this.priv == priv && devPrivatePtr == 0
    {
      this.bitsPerPixel := bitsPerPixel;
      this.depth := depth;
      this.width := width;
      this.height := height;
      this.devKind := devKind;
      this.offset := offset;
      this.priv := priv;
      devPrivatePtr := 0;
    }
  }

  /** The fallback test both Prepare entry points share: 16 bits per pixel and a full 16-bit planemask. */
  predicate Accelerated(bitsPerPixel: u8, planemask: u32)
  {
    bitsPerPixel == 16 && And(planemask, 0xffff) == 0xffff
  }

  /** The planemask test holds exactly when the low 16 bits of the planemask are all set. */
  lemma PlanemaskFull(planemask: u32)
    ensures And(planemask, 0xffff) == 0xffff <==> planemask % 0x1_0000 == 0xffff
  {
    Pow2Values();
    AndLowMask(planemask, 16);
  }
}
