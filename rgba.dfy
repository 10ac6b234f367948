/**
 * captureRGBA: an I420 client frame becomes a 640x480 RGBA_8888 image. The
 * frame is walked two rows at a time: each U,V pair is read once and colors
 * the 2x2 block of luma samples it belongs to.
 */
module Rgba {
  import opened Common
  import opened Pixel
  import opened ClientVideo

  /** Bytes of the RGBA image written: four per pixel of the 640x480 frame. */
  const RgbaSize: nat := 1228800   // FrameWidth * FrameHeight * 4

  /**
   * The literals that index the RGBA image and the chroma planes are the
   * frame geometry: 640 pixels per row, 2560 RGBA bytes per row, 320 x 240
   * chroma samples, 1228800 bytes in all.
   */
  lemma RgbaLayout()
    ensures FrameWidth == 640 && FrameHeight == 480
    ensures RgbaSize == FrameWidth * FrameHeight * 4 && 2560 == FrameWidth * 4
    ensures 320 == FrameWidth / 2 && 240 == FrameHeight / 2 && ChromaSize == 320 * 240
  {
  }

  /** Index of the luma sample of pixel (x, y) in the Y plane. */
  function LumaIndex(x: nat, y: nat): (i: nat)
    requires x < FrameWidth && y < FrameHeight
    ensures i < YSize
  {
    640 * y + x
  }

  /** Index, within a chroma plane, of the U and V samples shared by the 2x2 block holding pixel (x, y). */
  function ChromaIndex(x: nat, y: nat): (i: nat)
    requires x < FrameWidth && y < FrameHeight
    ensures i < ChromaSize
  {
    320 * (y / 2) + x / 2
  }

  /** The RGBA color of pixel (x, y) of an I420 frame. */
  function PixelRgba(frame: seq<Byte>, x: nat, y: nat): (px: seq<Byte>)
    requires |frame| == I420Size && x < FrameWidth && y < FrameHeight
    ensures |px| == 4 && px[3] == 0xff
  {
    YuvToRgba(frame[LumaIndex(x, y)],
              frame[UPlane + ChromaIndex(x, y)] as int - 128,
              frame[VPlane + ChromaIndex(x, y)] as int - 128)
  }

  /**
   * img is the RGBA image of an I420 frame: pixels are stored row by row, four
   * bytes each, and the four bytes of pixel (x, y) are its color.
   */
  ghost predicate IsRgbaImage(img: seq<Byte>, frame: seq<Byte>)
    requires |frame| == I420Size
  {
    |img| == RgbaSize &&
    forall x: nat, y: nat, c: nat :: x < FrameWidth && y < FrameHeight && c < 4
      ==> img[4 * (640 * y + x) + c] == PixelRgba(frame, x, y)[c]
  }

  /**
   * The RGBA image of an I420 frame, byte by byte: byte j is channel j % 4 of
   * pixel j / 4, pixels numbered row by row.
   */
  function RgbaImage(frame: seq<Byte>): (img: seq<Byte>)
    requires |frame| == I420Size
    ensures |img| == RgbaSize
  {
    seq(RgbaSize, j requires 0 <= j < RgbaSize => PixelRgba(frame, (j / 4) % 640, j / 2560)[j % 4])
  }

  /** Byte j of the image is channel j % 4 of pixel ((j / 4) % 640, j / 2560). */
  lemma PixelOfByte(j: nat)
    requires j < RgbaSize
    ensures (j / 4) % 640 < FrameWidth && j / 2560 < FrameHeight
    ensures j == 4 * (640 * (j / 2560) + (j / 4) % 640) + j % 4
  {
    var q, c := j / 4, j % 4;
    var x, r := q % 640, q / 640;
    assert j == 2560 * r + (4 * x + c);
    assert j / 2560 == r;
  }

  /** Pixel (x, y) occupies bytes 4i .. 4i+3 of the image, for i its row-major index. */
  lemma RgbaImageAt(frame: seq<Byte>, x: nat, y: nat, c: nat)
    requires |frame| == I420Size && x < FrameWidth && y < FrameHeight && c < 4
    ensures RgbaImage(frame)[4 * LumaIndex(x, y) + c] == PixelRgba(frame, x, y)[c]
  {
    var j := 4 * LumaIndex(x, y) + c;
    assert j / 4 == 640 * y + x && j % 4 == c;
    assert (j / 4) % 640 == x && j / 2560 == y;
  }

  /** RgbaImage is an RGBA image of the frame. */
  lemma RgbaImageIsImage(frame: seq<Byte>)
    requires |frame| == I420Size
    ensures IsRgbaImage(RgbaImage(frame), frame)
  {
    forall x: nat, y: nat, c: nat | x < FrameWidth && y < FrameHeight && c < 4
      ensures RgbaImage(frame)[4 * (640 * y + x) + c] == PixelRgba(frame, x, y)[c]
    {
      RgbaImageAt(frame, x, y, c);
    }
  }

  /** A frame has only one RGBA image: every byte belongs to exactly one pixel. */
  lemma RgbaImageUnique(img: seq<Byte>, frame: seq<Byte>)
    requires |frame| == I420Size && IsRgbaImage(img, frame)
    ensures img == RgbaImage(frame)
  {
    forall j | 0 <= j < RgbaSize
      ensures img[j] == RgbaImage(frame)[j]
    {
      PixelOfByte(j);
      var x, y, c := (j / 4) % 640, j / 2560, j % 4;
      assert img[4 * (640 * y + x) + c] == PixelRgba(frame, x, y)[c];
    }
  }

  /** Every fourth byte, the alpha channel, is opaque. */
  lemma RgbaOpaque(frame: seq<Byte>, j: nat)
    requires |frame| == I420Size && j < RgbaSize && j % 4 == 3
    ensures RgbaImage(frame)[j] == 0xff
  {
  }

  /** The four pixels of the 2x2 block whose top-left pixel is (2cx, 2cy) take their chroma from sample (cx, cy) of each chroma plane. */
  lemma BlockSharesChroma(x: nat, y: nat, cx: nat, cy: nat)
    requires cx < 320 && cy < 240 && 2 * cx <= x <= 2 * cx + 1 && 2 * cy <= y <= 2 * cy + 1
    ensures x < FrameWidth && y < FrameHeight && ChromaIndex(x, y) == 320 * cy + cx
  {
  }

  /** Two pixels share a chroma sample exactly when they lie in the same 2x2 block. */
  lemma ChromaSharedIffSameBlock(x1: nat, y1: nat, x2: nat, y2: nat)
    requires x1 < FrameWidth && y1 < FrameHeight && x2 < FrameWidth && y2 < FrameHeight
    ensures ChromaIndex(x1, y1) == ChromaIndex(x2, y2) <==> x1 / 2 == x2 / 2 && y1 / 2 == y2 / 2
  {
  }

  /**
   * Convert one pixel and store its four bytes at img[p .. p+4], as the four
   * `*pD++ = ...` stores of the conversion loop do. Given the luma sample of
   * pixel (x, y) and the centered chroma samples of its block, the bytes stored
   * are those of pixel (x, y) in the RGBA image want of the frame; no other
   * byte changes.
   */
  method StorePixel(img: array<Byte>, p: nat, luma: Byte, u: int, v: int,
                    ghost want: seq<Byte>, ghost frame: seq<Byte>, ghost x: nat, ghost y: nat,
                    ghost cx: nat, ghost cy: nat)
    requires |frame| == I420Size && IsRgbaImage(want, frame)
    requires cx < 320 && cy < 240 && 2 * cx <= x <= 2 * cx + 1 && 2 * cy <= y <= 2 * cy + 1
    requires p == 4 * (640 * y + x) && luma == frame[640 * y + x]
    requires u == frame[UPlane + 320 * cy + cx] as int - 128
    requires v == frame[VPlane + 320 * cy + cx] as int - 128
    requires img.Length >= RgbaSize
    modifies img
    ensures forall j :: p <= j < p + 4 ==> img[j] == want[j]
    ensures forall j :: 0 <= j < img.Length && !(p <= j < p + 4) ==> img[j] == old(img[j])
  {
    BlockSharesChroma(x, y, cx, cy);
    var px := YuvToRgba(luma, u, v);
    assert px == PixelRgba(frame, x, y);
    assert forall c :: 0 <= c < 4 ==> want[p + c] == px[c];
    img[p] := px[0];
    img[p + 1] := px[1];
    img[p + 2] := px[2];
    img[p + 3] := 0xff;
  }

  /**
   * One pass of the inner loop: the U,V pair of chroma sample (cx, cy) colors
   * the 2x2 block whose top-left pixel is (x, y) = (2cx, 2cy). Pixels (x, y)
   * and (x + 1, y) are stored through pD1, pixels (x, y + 1) and (x + 1, y + 1)
   * through pD2; no other byte changes.
   */
  method ConvertBlock(img: array<Byte>, bufData: seq<Byte>, pY1: nat, pY2: nat, pU: nat, pV: nat,
                      pD1: nat, pD2: nat, ghost want: seq<Byte>, ghost x: nat, ghost y: nat, ghost cx: nat, ghost cy: nat)
    requires |bufData| == I420Size && IsRgbaImage(want, bufData) && img.Length >= RgbaSize
    requires cx < 320 && cy < 240 && x == 2 * cx && y == 2 * cy
    requires pY1 == 640 * y + x && pY2 == pY1 + 640
    requires pU == UPlane + 320 * cy + cx && pV == VPlane + 320 * cy + cx
    requires pD1 == 4 * pY1 && pD2 == pD1 + 2560
    modifies img
    ensures forall j :: pD1 <= j < pD1 + 8 ==> img[j] == want[j]
    ensures forall j :: pD2 <= j < pD2 + 8 ==> img[j] == want[j]
    ensures forall j :: 0 <= j < img.Length && !(pD1 <= j < pD1 + 8) && !(pD2 <= j < pD2 + 8)
              ==> img[j] == old(img[j])
  {
    var v1 := bufData[pV] as int - 128;
    var u1 := bufData[pU] as int - 128;
    // Left pixels of the block, rows y and y + 1.
    StorePixel(img, pD1, bufData[pY1], u1, v1, want, bufData, x, y, cx, cy);
    StorePixel(img, pD2, bufData[pY2], u1, v1, want, bufData, x, y + 1, cx, cy);
    // Right pixels of the block.
    StorePixel(img, pD1 + 4, bufData[pY1 + 1], u1, v1, want, bufData, x + 1, y, cx, cy);
    StorePixel(img, pD2 + 4, bufData[pY2 + 1], u1, v1, want, bufData, x + 1, y + 1, cx, cy);
  }

  /**
   * One pass of the row loop: convert rows h and h + 1, reading the two luma
   * rows through pY1 and pY2 and one chroma row through pU and pV, and storing
   * the two RGBA rows through pD1 and pD2, each U,V pair coloring one 2x2
   * block. Returns the advanced pointers.
   */
  method ConvertRowPair(img: array<Byte>, bufData: seq<Byte>, h: nat,
                        pY1: nat, pY2: nat, pU: nat, pV: nat, pD1: nat, pD2: nat,
                        ghost want: seq<Byte>, ghost cy: nat)
      returns (y1End: nat, y2End: nat, uEnd: nat, vEnd: nat, d1End: nat, d2End: nat)
    requires |bufData| == I420Size && IsRgbaImage(want, bufData)
    requires cy < 240 && h == 2 * cy
    requires pY1 == 640 * h && pY2 == pY1 + 640
    requires pU == UPlane + 160 * h && pV == VPlane + 160 * h
    requires pD1 == 2560 * h && pD2 == pD1 + 2560 && img.Length >= RgbaSize
    modifies img
    ensures y1End == pY1 + 640 && y2End == pY2 + 640 && uEnd == pU + 320 && vEnd == pV + 320
    ensures d1End == pD1 + 2560 && d2End == pD2 + 2560
    ensures forall j :: pD1 <= j < pD1 + 5120 ==> img[j] == want[j]
    ensures forall j :: 0 <= j < img.Length && !(pD1 <= j < pD1 + 5120) ==> img[j] == old(img[j])
  {
    var pY1, pY2, pU, pV, pD1, pD2 := pY1, pY2, pU, pV, pD1, pD2;
    var w := 0;
    ghost var cx := 0;
    while w < 640
      invariant w == 2 * cx && cx <= 320
      invariant pY1 == 640 * h + w && pY2 == pY1 + 640
      invariant pU == UPlane + 320 * cy + cx && pV == VPlane + 320 * cy + cx
      invariant pD1 == 2560 * h + 4 * w && pD2 == pD1 + 2560
      invariant forall j :: 2560 * h <= j < pD1 ==> img[j] == want[j]
      invariant forall j :: 2560 * (h + 1) <= j < pD2 ==> img[j] == want[j]
      invariant forall j :: 0 <= j < img.Length && !(2560 * h <= j < pD1) && !(2560 * (h + 1) <= j < pD2)
                  ==> img[j] == old(img[j])
    {
      ConvertBlock(img, bufData, pY1, pY2, pU, pV, pD1, pD2, want, w, h, cx, cy);
      pV, pU := pV + 1, pU + 1;
      pD1, pD2 := pD1 + 8, pD2 + 8;
      pY1, pY2 := pY1 + 2, pY2 + 2;
      w := w + 2;
      cx := cx + 1;
    }
    y1End, y2End, uEnd, vEnd, d1End, d2End := pY1, pY2, pU, pV, pD1, pD2;
  }

  /**
   * Fill img with the RGBA image of the client frame in slot clientUsedCount % 8,
   * then count that frame as consumed. The requested width and height are
   * ignored: the geometry is forced to 640x480.
   */
  method CaptureRGBA(img: array<Byte>, handle: ClientVideoBuffer, gain: nat, width: nat, height: nat)
    requires handle.Valid() && img.Length >= RgbaSize
    modifies img, handle`clientUsedCount
    ensures handle.Valid() && handle.clientUsedCount == old(handle.clientUsedCount) + 1
    ensures IsRgbaImage(img[..RgbaSize], old(handle.CurrentFrame()))
    ensures img[..RgbaSize] == RgbaImage(old(handle.CurrentFrame()))
    ensures img[RgbaSize..] == old(img[RgbaSize..])
  {
    var width, height := 640, 480;
    var bufData := handle.clientBuf[handle.clientUsedCount % 8];
    handle.clientUsedCount := handle.clientUsedCount + 1;
    label consumed:
    RgbaImageIsImage(bufData);
    ghost var want :| IsRgbaImage(want, bufData);
    assert IsRgbaImage(want, bufData);

    var pY1, pY2 := 0, width;
    var pU, pV := width * height, 384000;   // (int)(width * height * 1.25)
    var pD1, pD2 := 0, width * 4;
    var h := 0;
    ghost var cy := 0;
    while h < height
      invariant h == 2 * cy && cy <= 240
      invariant pY1 == 640 * h && pY2 == pY1 + 640
      invariant pU == UPlane + 160 * h && pV == VPlane + 160 * h
      invariant pD1 == 2560 * h && pD2 == pD1 + 2560
      invariant |want| == RgbaSize && pD1 <= RgbaSize
      invariant forall j :: 0 <= j < pD1 ==> img[j] == want[j]
      invariant forall j :: RgbaSize <= j < img.Length ==> img[j] == old(img[j])
      invariant unchanged@consumed(handle)
    {
      pY1, pY2, pU, pV, pD1, pD2 := ConvertRowPair(img, bufData, h, pY1, pY2, pU, pV, pD1, pD2, want, cy);
      pY1, pY2 := pY1 + width, pY2 + width;
      pD1, pD2 := pD1 + 4 * width, pD2 + 4 * width;
      h := h + 2;
      cy := cy + 1;
    }
    assert img[..RgbaSize] == want;
    RgbaImageUnique(want, bufData);
  }
}
