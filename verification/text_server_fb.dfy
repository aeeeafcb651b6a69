/**
 * Helpers of the fallback text server: packing of four-character OpenType
 * tags into a signed 32-bit integer, the per-font defaults, and the mapping
 * from a requested font size to the size key under which glyphs are cached.
 */
module TextServerFallback {

  const TWO_8: int := 0x100
  const TWO_16: int := 0x1_0000
  const TWO_24: int := 0x100_0000
  const TWO_31: int := 0x8000_0000
  const TWO_32: int := 0x1_0000_0000

  /** The low eight bits of `c`, as the unsigned cast and mask keep them. */
  function LowByte(c: int): (b: int)
    ensures 0 <= b < TWO_8
    ensures (c - b) % TWO_8 == 0
  {
    c % TWO_8
  }

  /**
   * OT_TAG(c1, c2, c3, c4): the low bytes of the four characters, first
   * character in the most significant byte, read back as a signed 32-bit
   * integer.
   */
  function OtTag(c1: int, c2: int, c3: int, c4: int): (t: int)
    ensures -TWO_31 <= t < TWO_31
  {
    var u := LowByte(c1) * TWO_24 + LowByte(c2) * TWO_16 + LowByte(c3) * TWO_8 + LowByte(c4);
    if u >= TWO_31 then u - TWO_32 else u
  }

  /** The four bytes of a tag, most significant first. */
  function TagBytes(t: int): (b: (int, int, int, int))
    requires -TWO_31 <= t < TWO_31
    ensures 0 <= b.0 < TWO_8 && 0 <= b.1 < TWO_8 && 0 <= b.2 < TWO_8 && 0 <= b.3 < TWO_8
  {
    var u := if t < 0 then t + TWO_32 else t;
    (u / TWO_24, u / TWO_16 % TWO_8, u / TWO_8 % TWO_8, u % TWO_8)
  }

  lemma {:induction false} DigitsOfBase256(a: int, b: int, c: int, d: int)
    requires 0 <= a < TWO_8 && 0 <= b < TWO_8 && 0 <= c < TWO_8 && 0 <= d < TWO_8
    ensures var u := a * TWO_24 + b * TWO_16 + c * TWO_8 + d;
      0 <= u < TWO_32 && u / TWO_24 == a && u / TWO_16 % TWO_8 == b && u / TWO_8 % TWO_8 == c && u % TWO_8 == d
  {
    var u := a * TWO_24 + b * TWO_16 + c * TWO_8 + d;
    var low8 := d;
    var low16 := c * TWO_8 + d;
    var low24 := b * TWO_16 + low16;
    assert 0 <= low16 < TWO_16;
    assert 0 <= low24 < TWO_24;
    assert u == a * TWO_24 + low24;
    assert u / TWO_24 == a;
    assert u == (a * TWO_8 + b) * TWO_16 + low16;
    assert u / TWO_16 == a * TWO_8 + b;
    assert (a * TWO_8 + b) % TWO_8 == b;
    assert u == ((a * TWO_8 + b) * TWO_8 + c) * TWO_8 + d;
    assert u / TWO_8 == (a * TWO_8 + b) * TWO_8 + c;
    assert ((a * TWO_8 + b) * TWO_8 + c) % TWO_8 == c;
  }

  /** Every character's low byte can be read back from the packed tag. */
  lemma {:induction false} OtTagRoundTrip(c1: int, c2: int, c3: int, c4: int)
    ensures TagBytes(OtTag(c1, c2, c3, c4)) == (LowByte(c1), LowByte(c2), LowByte(c3), LowByte(c4))
  {
    DigitsOfBase256(LowByte(c1), LowByte(c2), LowByte(c3), LowByte(c4));
  }

  /** Tags are equal exactly when the four low bytes are. */
  lemma {:induction false} OtTagInjective(a1: int, a2: int, a3: int, a4: int, b1: int, b2: int, b3: int, b4: int)
    ensures OtTag(a1, a2, a3, a4) == OtTag(b1, b2, b3, b4)
      <==> (LowByte(a1), LowByte(a2), LowByte(a3), LowByte(a4)) == (LowByte(b1), LowByte(b2), LowByte(b3), LowByte(b4))
  {
    OtTagRoundTrip(a1, a2, a3, a4);
    OtTagRoundTrip(b1, b2, b3, b4);
  }

  /** The tag is negative exactly when the first character's top bit is set. */
  lemma {:induction false} OtTagSign(c1: int, c2: int, c3: int, c4: int)
    ensures OtTag(c1, c2, c3, c4) < 0 <==> LowByte(c1) >= 0x80
  {
    DigitsOfBase256(LowByte(c1), LowByte(c2), LowByte(c3), LowByte(c4));
  }

  datatype Hinting = HintingNone | HintingLight | HintingNormal

  /** The per-font settings that decide cache keys and rendering. */
  datatype FontData = FontData(
    antialiased: bool,
    msdf: bool,
    msdfRange: int,
    msdfSourceSize: int,
    fixedSize: int,
    forceAutohinter: bool,
    hinting: Hinting,
    oversampling: real)

  /** A freshly created font. */
  function DefaultFontData(): (f: FontData)
    ensures f.antialiased && !f.msdf && !f.forceAutohinter
    ensures f.msdfRange == 14 && f.msdfSourceSize == 48
    ensures f.fixedSize == 0 && f.hinting == HintingLight && f.oversampling == 0.0
  {
    FontData(true, false, 14, 48, 0, false, HintingLight, 0.0)
  }

  datatype Vector2i = Vector2i(x: int, y: int)

  /**
   * _get_size: the cache key for a glyph size. Distance-field fonts are always
   * rendered at their source size, fixed-size (bitmap) fonts at their fixed
   * size, any other font at the requested size; the outline part is zero.
   */
  function GetSize(f: FontData, size: int): (r: Vector2i)
    ensures r.y == 0
    ensures f.msdf ==> r.x == f.msdfSourceSize
    ensures !f.msdf && f.fixedSize > 0 ==> r.x == f.fixedSize
    ensures !f.msdf && f.fixedSize <= 0 ==> r.x == size
  {
    if f.msdf then Vector2i(f.msdfSourceSize, 0)
    else if f.fixedSize > 0 then Vector2i(f.fixedSize, 0)
    else Vector2i(size, 0)
  }

  /**
   * _get_size_outline: as _get_size for the glyph size; a distance-field font
   * drops the outline size, a fixed-size font clamps it to at most 1, any other
   * font keeps the requested pair.
   */
  function GetSizeOutline(f: FontData, size: Vector2i): (r: Vector2i)
    ensures r.x == GetSize(f, size.x).x
    ensures f.msdf ==> r.y == 0
    ensures !f.msdf && f.fixedSize > 0 ==> r.y == if size.y < 1 then size.y else 1
    ensures !f.msdf && f.fixedSize <= 0 ==> r == size
  {
    if f.msdf then Vector2i(f.msdfSourceSize, 0)
    else if f.fixedSize > 0 then Vector2i(f.fixedSize, if size.y < 1 then size.y else 1)
    else size
  }

  /** Mapping a size key again changes nothing: the key is a fixed point. */
  lemma {:induction false} GetSizeIdempotent(f: FontData, size: int)
    ensures GetSize(f, GetSize(f, size).x) == GetSize(f, size)
  {
  }

  /** Outline keys are fixed points as well. */
  lemma {:induction false} GetSizeOutlineIdempotent(f: FontData, size: Vector2i)
    ensures GetSizeOutline(f, GetSizeOutline(f, size)) == GetSizeOutline(f, size)
  {
  }

  /** Without an outline the two mappings agree. */
  lemma {:induction false} OutlineAgreesWithoutOutline(f: FontData, size: int)
    ensures GetSizeOutline(f, Vector2i(size, 0)) == GetSize(f, size)
  {
  }
}
