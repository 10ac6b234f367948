/**
 * Sensor constants and the per-pixel formulas of the format synthesizers:
 * the CLAP macro, the fixed-point YUV to RGBA conversion, the RGB and depth
 * saturating clamps and the integer skeleton of the raw Bayer path.
 */
module Pixel {
  import opened Common

  // Output image data characteristics.
  const MaxRawValue: nat := 4000
  const BlackLevel: nat := 1000
  const SaturationElectrons: nat := 2000
  /** Raw counts per electron at unit gain. */
  const BaseGainFactor: nat := 2   // MaxRawValue / SaturationElectrons
  const MinSensitivity: nat := 100
  const MaxSensitivity: nat := 1600
  const DefaultSensitivity: nat := 100

  /** Electron counts of one scene pixel, one per color filter. */
  datatype Electrons = Electrons(r: U32, gr: U32, gb: U32, b: U32)

  // Channel indices of the scene's electron array (R, Gr, Gb, B).
  const ChannelR: nat := 0
  const ChannelGr: nat := 1
  const ChannelGb: nat := 2
  const ChannelB: nat := 3

  function Channel(e: Electrons, i: nat): U32
    requires i < 4
  {
    if i == ChannelR then e.r
    else if i == ChannelGr then e.gr
    else if i == ChannelGb then e.gb
    else e.b
  }

  /** The CLAP macro: clamp an int into the 0..255 range of a byte, saturating below and above. */
  function Clap(a: int): (r: Byte)
    ensures 0 <= a <= 0xff ==> r == a
    ensures a < 0 ==> r == 0
    ensures a > 0xff ==> r == 0xff
  {
    Max(Min(a, 0xff), 0x00)
  }

  /** CLAP leaves a value unchanged exactly when it already is a byte. */
  lemma ClapFixesExactlyBytes(a: int)
    ensures Clap(a) == a <==> 0 <= a <= 0xff
  {
  }

  /**
   * `a >> 14` on a signed int, an arithmetic shift: floor division by 2^14,
   * rounding toward negative infinity also for negative a.
   */
  function Asr14(a: int): (r: int)
    ensures r * 16384 <= a < r * 16384 + 16384
  {
    a / 16384
  }

  /**
   * One RGBA pixel from a luma sample y and the centered chroma samples
   * u = U - 128 and v = V - 128 of its 2x2 block: each color channel is the luma
   * plus a fixed-point BT.601 chroma term (coefficients scaled by 2^14:
   * C0 = 22987 for V in R, C1 = -11698 for V in G, C2 = -5636 for U in G,
   * C3 = 29049 for U in B) rounded by the offset 8192 and shifted right by 14,
   * clamped by CLAP; alpha is opaque.
   */
  function YuvToRgba(y: Byte, u: int, v: int): (px: seq<Byte>)
    ensures |px| == 4 && px[3] == 0xff
  {
    [ Clap(y + Asr14(v * 22987 + 8192)),
      Clap(y + Asr14(u * -5636 + v * -11698 + 8192)),
      Clap(y + Asr14(u * 29049 + 8192)),
      0xff ]
  }

  /** Without chroma the conversion is exact: the pixel is the gray (y, y, y). */
  lemma NeutralChromaIsGray(y: Byte)
    ensures YuvToRgba(y, 0, 0) == [y, y, y, 0xff]
  {
  }

  /** Each color channel of the RGBA conversion is non-decreasing in luma. */
  lemma YuvToRgbaMonotoneInLuma(y1: Byte, y2: Byte, u: int, v: int)
    requires y1 <= y2
    ensures forall c :: 0 <= c < 3 ==> YuvToRgba(y1, u, v)[c] <= YuvToRgba(y2, u, v)[c]
  {
  }

  /** An 8-bit RGB channel from a count scaled by 64: `count < 255*64 ? count/64 : 255`. */
  function RgbByte(count: U32): (r: Byte)
    ensures r == Min(count / 64, 255)
    ensures count < 255 * 64 ==> r * 64 <= count < r * 64 + 64
  {
    if count < 255 * 64 then count / 64 else 255
  }

  /** The ordered dither added to every RGB channel of output pixel (outX, outY). */
  function Dither(outX: nat, outY: nat): (d: nat)
    ensures d < 64
  {
    (outX + outY) % 64
  }

  /**
   * The uint32 count of one RGB channel: electrons plus the dither, times
   * scale64x. Both the sum and the product wrap, and the count is the exact
   * count modulo 2^32.
   */
  function RgbCount(electrons: U32, outX: nat, outY: nat, scale64x: nat): (r: U32)
    ensures r == Wrap32((electrons + Dither(outX, outY)) * scale64x)
  {
    Wrap32MulWrap(electrons + Dither(outX, outY), scale64x);
    Wrap32(Wrap32(electrons + Dither(outX, outY)) * scale64x)
  }

  /** The count is exact whenever the largest dithered count cannot overflow. */
  lemma RgbCountExact(electrons: U32, outX: nat, outY: nat, scale64x: nat)
    requires (electrons + 63) * scale64x < 0x1_0000_0000
    ensures RgbCount(electrons, outX, outY, scale64x) == (electrons + Dither(outX, outY)) * scale64x
  {
    var exact := (electrons + Dither(outX, outY)) * scale64x;
    MulMonotone(electrons + Dither(outX, outY), electrons + 63, scale64x);
    assert exact < 0x1_0000_0000;
  }

  /** A 13-bit depth code from a count scaled by 64: `count < 8191*64 ? count/64 : 0`. */
  function DepthCode(count: U32): (r: U16)
    ensures r < 8191
    ensures count < 8191 * 64 ==> r * 64 <= count < r * 64 + 64
    ensures count >= 8191 * 64 ==> r == 0
  {
    if count < 8191 * 64 then count / 64 else 0
  }

  /**
   * The uint32 depth count: the Gr electrons times scale64x, wrapped. It
   * never exceeds the exact product, and it is the product when that fits.
   */
  function DepthCount(electrons: U32, scale64x: nat): (r: U32)
    ensures r <= electrons * scale64x
    ensures electrons * scale64x < 0x1_0000_0000 ==> r == electrons * scale64x
  {
    Wrap32(electrons * scale64x)
  }

  /** The RGGB mosaic: the filter channel for the pixel at (x, y), `bayerSelect[(y&1)*2 + (x&1)]`. */
  const BayerSelect: seq<nat> := [ChannelR, ChannelGr, ChannelGb, ChannelB]

  function BayerChannel(e: Electrons, x: nat, y: nat): (c: U32)
    ensures y % 2 == 0 && x % 2 == 0 ==> c == e.r
    ensures y % 2 == 0 && x % 2 == 1 ==> c == e.gr
    ensures y % 2 == 1 && x % 2 == 0 ==> c == e.gb
    ensures y % 2 == 1 && x % 2 == 1 ==> c == e.b
  {
    Channel(e, BayerSelect[(y % 2) * 2 + x % 2])
  }

  /**
   * The raw count before noise: electrons clamped to saturation, times the total
   * gain gain/100 * kBaseGainFactor, clamped to kMaxRawValue, plus the black level.
   */
  function RawPreNoise(electrons: U32, gain: nat): (r: U16)
    requires gain <= MaxSensitivity
    ensures BlackLevel <= r <= BlackLevel + MaxRawValue
  {
    var e := if electrons < SaturationElectrons then electrons else SaturationElectrons;
    var raw := e * gain * BaseGainFactor / 100;
    (if raw < MaxRawValue then raw else MaxRawValue) + BlackLevel
  }

  /** Below saturation the raw response is monotone in the electron count. */
  lemma RawPreNoiseMonotone(e1: U32, e2: U32, gain: nat)
    requires gain <= MaxSensitivity
    requires e1 <= e2
    ensures RawPreNoise(e1, gain) <= RawPreNoise(e2, gain)
  {
    var s1 := if e1 < SaturationElectrons then e1 else SaturationElectrons;
    var s2 := if e2 < SaturationElectrons then e2 else SaturationElectrons;
    assert s1 <= s2;
    MulMonotone(s1, s2, gain * BaseGainFactor);
    assert s1 * gain * BaseGainFactor <= s2 * gain * BaseGainFactor;
    DivMonotone(s1 * gain * BaseGainFactor, s2 * gain * BaseGainFactor, 100);
  }

  /** At or beyond saturation, with at least the minimum sensitivity, the output is kMaxRawValue + kBlackLevel. */
  lemma RawPreNoiseSaturates(e: U32, gain: nat)
    requires MinSensitivity <= gain <= MaxSensitivity
    requires e >= SaturationElectrons
    ensures RawPreNoise(e, gain) == MaxRawValue + BlackLevel
  {
  }
}
