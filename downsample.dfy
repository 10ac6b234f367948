/**
 * captureRGB and captureDepth: nearest-neighbour downsamplers from the scene
 * to an output image of any requested size. Output row outY samples scene row
 * outY * DivH >> 10 and output column outX samples scene column
 * outX * DivW >> 10, DivH and DivW being the scene-to-output ratios in 10-bit
 * fixed point. Along a row the scene is read through its readout cursor,
 * which only ever moves forward.
 *
 * The fixed-point ratios and scale64x come from float arithmetic on the gain
 * and the resolutions; here they are parameters.
 */
module Downsample {
  import opened Common
  import opened Pixel
  import opened SceneModel

  /**
   * `out * div >> 10`: the scene coordinate an output coordinate samples, the
   * product scaled down by 2^10 and rounded down.
   */
  function SourceCoord(out: nat, div: nat): (r: nat)
    ensures r * 1024 <= out * div < r * 1024 + 1024
  {
    out * div / 1024
  }

  /** Sampling is monotone: a later output column never samples an earlier scene column. */
  lemma SourceCoordMonotone(a: nat, b: nat, div: nat)
    requires a <= b
    ensures SourceCoord(a, div) <= SourceCoord(b, div)
  {
    MulMonotone(a, b, div);
    DivMonotone(a * div, b * div, 1024);
  }

  /** With the unit ratio 1 << 10 every output coordinate samples the same scene coordinate. */
  lemma SourceCoordUnit(out: nat)
    ensures SourceCoord(out, 1024) == out
  {
  }

  /** Every one of outSize output coordinates samples inside a scene dimension of sceneSize. */
  predicate Covers(sceneSize: nat, outSize: nat, div: nat)
  {
    forall out :: 0 <= out < outSize ==> SourceCoord(out, div) < sceneSize
  }

  /** It is enough that the last output coordinate samples inside the scene. */
  lemma CoversByLast(sceneSize: nat, outSize: nat, div: nat)
    ensures Covers(sceneSize, outSize, div) <==> (outSize == 0 || SourceCoord(outSize - 1, div) < sceneSize)
  {
    if outSize > 0 && SourceCoord(outSize - 1, div) < sceneSize {
      forall out | 0 <= out < outSize
        ensures SourceCoord(out, div) < sceneSize
      {
        SourceCoordMonotone(out, outSize - 1, div);
      }
    }
  }

  /** The scene column the readout rests on after the first n output pixels of a row: lastX. */
  function LastColumn(n: nat, divW: nat): nat
  {
    if n == 0 then 0 else SourceCoord(n - 1, divW)
  }

  /** The scene pixel that output pixel (outX, outY) samples. */
  function SampledPixel(rows: seq<seq<Electrons>>, outX: nat, outY: nat, divW: nat, divH: nat): Electrons
    requires SourceCoord(outY, divH) < |rows| && SourceCoord(outX, divW) < |rows[SourceCoord(outY, divH)]|
  {
    rows[SourceCoord(outY, divH)][SourceCoord(outX, divW)]
  }

  /** The electrons behind RGB channel c (0 red, 1 green, 2 blue); green is read from Gr. */
  function RgbElectrons(e: Electrons, c: nat): U32
    requires c < 3
  {
    if c == 0 then e.r else if c == 1 then e.gr else e.b
  }

  /**
   * Channel c of an RGB output pixel: the dithered, scaled count divided by
   * 64, saturating at 255 once the count reaches 255 * 64.
   */
  function RgbAt(e: Electrons, outX: nat, outY: nat, c: nat, scale64x: nat): (b: Byte)
    requires c < 3
    ensures b == Min(RgbCount(RgbElectrons(e, c), outX, outY, scale64x) / 64, 255)
    ensures b < 255 ==> b * 64 <= RgbCount(RgbElectrons(e, c), outX, outY, scale64x) < b * 64 + 64
    ensures RgbCount(RgbElectrons(e, c), outX, outY, scale64x) >= 255 * 64 ==> b == 255
  {
    RgbByte(RgbCount(RgbElectrons(e, c), outX, outY, scale64x))
  }

  /** The depth output of a pixel: its Gr electrons scaled to a 13-bit code. */
  function DepthAt(e: Electrons, scale64x: nat): (d: U16)
    ensures d < 8191
  {
    DepthCode(DepthCount(e.gr, scale64x))
  }

  /**
   * Move the readout from column lastX to column x of row y, as each output
   * pixel does before it samples: `if (x - lastX > 0)`, read x - lastX more
   * pixels. The pixel in hand is always the one just behind the cursor.
   */
  method SeekColumn(scene: Scene, y: nat, lastX: nat, x: nat, pixel: Electrons) returns (next: Electrons)
    requires scene.Valid() && y < scene.height && lastX <= x < scene.width
    requires (scene.cursorX, scene.cursorY) == scene.Next(lastX, y)
    requires pixel == scene.rows[y][lastX]
    modifies scene`cursorX, scene`cursorY
    ensures scene.Valid() && (scene.cursorX, scene.cursorY) == scene.Next(x, y)
    ensures next == scene.rows[y][x]
  {
    next := pixel;
    if x - lastX > 0 {
      for k := 0 to x - lastX
        invariant scene.Valid()
        invariant (scene.cursorX, scene.cursorY) == scene.Next(lastX + k, y)
        invariant next == scene.rows[y][lastX + k]
      {
        next := scene.GetPixelElectrons();
      }
    }
  }

  /** Store the three clamped channels of one output pixel at px. */
  method StoreRgb(img: array<Byte>, px: nat, pixel: Electrons, outX: nat, outY: nat, scale64x: nat)
    requires px + 3 <= img.Length
    modifies img
    ensures forall c :: 0 <= c < 3 ==> img[px + c] == RgbAt(pixel, outX, outY, c, scale64x)
    ensures forall j :: 0 <= j < img.Length && !(px <= j < px + 3) ==> img[j] == old(img[j])
  {
    // Perfect demosaicing: every channel is read at the same scene pixel.
    var rCount := RgbCount(pixel.r, outX, outY, scale64x);
    var gCount := RgbCount(pixel.gr, outX, outY, scale64x);
    var bCount := RgbCount(pixel.b, outX, outY, scale64x);
    img[px] := RgbByte(rCount);
    img[px + 1] := RgbByte(gCount);
    img[px + 2] := RgbByte(bCount);
  }

  /**
   * One output row of captureRGB: rewind the readout to (0, y), then for each
   * output column seek to its sampled scene column and store the three
   * clamped channels at px0 + 3 * outX.
   */
  method CaptureRgbRow(img: array<Byte>, scene: Scene, outY: nat, y: nat, px0: nat,
                       width: nat, scale64x: nat, divW: nat, ghost divH: nat)
    requires scene.Valid() && y == SourceCoord(outY, divH) && y < scene.height
    requires Covers(scene.width, width, divW)
    requires px0 + 3 * width <= img.Length
    modifies img, scene`cursorX, scene`cursorY
    ensures scene.Valid()
    ensures (scene.cursorX, scene.cursorY) == scene.Next(LastColumn(width, divW), y)
    ensures forall outX: nat, c: nat :: outX < width && c < 3
              ==> img[px0 + 3 * outX + c] == RgbAt(SampledPixel(scene.rows, outX, outY, divW, divH), outX, outY, c, scale64x)
    ensures forall j :: 0 <= j < img.Length && !(px0 <= j < px0 + 3 * width) ==> img[j] == old(img[j])
  {
    scene.SetReadoutPixel(0, y);
    var lastX := 0;
    var pixel := scene.GetPixelElectrons();
    var px := px0;
    var outX := 0;
    while outX < width
      invariant outX <= width && px == px0 + 3 * outX
      invariant lastX == LastColumn(outX, divW) && lastX < scene.width
      invariant scene.Valid() && (scene.cursorX, scene.cursorY) == scene.Next(lastX, y)
      invariant pixel == scene.rows[y][lastX]
      invariant forall ox: nat, c: nat :: ox < outX && c < 3
                  ==> img[px0 + 3 * ox + c] == RgbAt(SampledPixel(scene.rows, ox, outY, divW, divH), ox, outY, c, scale64x)
      invariant forall j :: 0 <= j < img.Length && !(px0 <= j < px) ==> img[j] == old(img[j])
    {
      var x := SourceCoord(outX, divW);
      if outX > 0 {
        SourceCoordMonotone(outX - 1, outX, divW);
      }
      pixel := SeekColumn(scene, y, lastX, x, pixel);
      lastX := x;
      StoreRgb(img, px, pixel, outX, outY, scale64x);
      px := px + 3;
      outX := outX + 1;
    }
  }

  /**
   * captureRGB: fill the first height rows of width * 3 bytes of img with the
   * downsampled scene, three bytes per output pixel.
   */
  method CaptureRGB(img: array<Byte>, scene: Scene, width: nat, height: nat,
                    scale64x: nat, divW: nat, divH: nat)
    requires scene.Valid()
    requires Covers(scene.width, width, divW) && Covers(scene.height, height, divH)
    requires RowsFit(img.Length, height, width * 3, width * 3)
    modifies img, scene`cursorX, scene`cursorY
    ensures scene.Valid()
    ensures forall outX: nat, outY: nat, c: nat :: outX < width && outY < height && c < 3
              ==> img[RowStart(outY, width * 3) + 3 * outX + c]
                  == RgbAt(SampledPixel(scene.rows, outX, outY, divW, divH), outX, outY, c, scale64x)
    ensures forall j :: 0 <= j < img.Length && !(j < RowStart(height, width * 3)) ==> img[j] == old(img[j])
    ensures height > 0 ==> (scene.cursorX, scene.cursorY) == scene.Next(LastColumn(width, divW), SourceCoord(height - 1, divH))
  {
    var outY := 0;
    while outY < height
      invariant outY <= height && scene.Valid()
      invariant outY > 0 ==> (scene.cursorX, scene.cursorY) == scene.Next(LastColumn(width, divW), SourceCoord(outY - 1, divH))
      invariant forall outX: nat, oy: nat, c: nat :: outX < width && oy < outY && c < 3
                  ==> img[RowStart(oy, width * 3) + 3 * outX + c]
                      == RgbAt(SampledPixel(scene.rows, outX, oy, divW, divH), outX, oy, c, scale64x)
      invariant forall j :: 0 <= j < img.Length && !(j < RowStart(outY, width * 3)) ==> img[j] == old(img[j])
    {
      var y := SourceCoord(outY, divH);
      var px := RowStart(outY, width * 3);   // img + outY * width * 3
      forall oy | 0 <= oy < outY
        ensures RowStart(oy, width * 3) + width * 3 <= px
      {
        RowsOrdered(oy, outY, width * 3);
      }
      CaptureRgbRow(img, scene, outY, y, px, width, scale64x, divW, divH);
      RowsOrdered(outY, outY + 1, width * 3);
      outY := outY + 1;
    }
  }

  /**
   * One output row of captureDepth: as for RGB, but one 16-bit depth code per
   * output pixel, stored at px0 + outX.
   */
  method CaptureDepthRow(img: array<U16>, scene: Scene, outY: nat, y: nat, px0: nat,
                         width: nat, scale64x: nat, divW: nat, ghost divH: nat)
    requires scene.Valid() && y == SourceCoord(outY, divH) && y < scene.height
    requires Covers(scene.width, width, divW)
    requires px0 + width <= img.Length
    modifies img, scene`cursorX, scene`cursorY
    ensures scene.Valid()
    ensures (scene.cursorX, scene.cursorY) == scene.Next(LastColumn(width, divW), y)
    ensures forall outX: nat :: outX < width
              ==> img[px0 + outX] == DepthAt(SampledPixel(scene.rows, outX, outY, divW, divH), scale64x)
    ensures forall j :: 0 <= j < img.Length && !(px0 <= j < px0 + width) ==> img[j] == old(img[j])
  {
    scene.SetReadoutPixel(0, y);
    var lastX := 0;
    var pixel := scene.GetPixelElectrons();
    var px := px0;
    var outX := 0;
    while outX < width
      invariant outX <= width && px == px0 + outX
      invariant lastX == LastColumn(outX, divW) && lastX < scene.width
      invariant scene.Valid() && (scene.cursorX, scene.cursorY) == scene.Next(lastX, y)
      invariant pixel == scene.rows[y][lastX]
      invariant forall ox: nat :: ox < outX
                  ==> img[px0 + ox] == DepthAt(SampledPixel(scene.rows, ox, outY, divW, divH), scale64x)
      invariant forall j :: 0 <= j < img.Length && !(px0 <= j < px) ==> img[j] == old(img[j])
    {
      var x := SourceCoord(outX, divW);
      if outX > 0 {
        SourceCoordMonotone(outX - 1, outX, divW);
      }
      pixel := SeekColumn(scene, y, lastX, x, pixel);
      lastX := x;
      var depthCount := DepthCount(pixel.gr, scale64x);
      img[px] := DepthCode(depthCount);
      px := px + 1;
      outX := outX + 1;
    }
  }

  /**
   * captureDepth: fill the first height rows of width elements of the 16-bit
   * image with the depth codes of the downsampled scene.
   */
  method CaptureDepth(img: array<U16>, scene: Scene, width: nat, height: nat,
                      scale64x: nat, divW: nat, divH: nat)
    requires scene.Valid()
    requires Covers(scene.width, width, divW) && Covers(scene.height, height, divH)
    requires RowsFit(img.Length, height, width, width)
    modifies img, scene`cursorX, scene`cursorY
    ensures scene.Valid()
    ensures forall outX: nat, outY: nat :: outX < width && outY < height
              ==> img[RowStart(outY, width) + outX] == DepthAt(SampledPixel(scene.rows, outX, outY, divW, divH), scale64x)
    ensures forall j :: 0 <= j < img.Length && !(j < RowStart(height, width)) ==> img[j] == old(img[j])
    ensures height > 0 ==> (scene.cursorX, scene.cursorY) == scene.Next(LastColumn(width, divW), SourceCoord(height - 1, divH))
  {
    var outY := 0;
    while outY < height
      invariant outY <= height && scene.Valid()
      invariant outY > 0 ==> (scene.cursorX, scene.cursorY) == scene.Next(LastColumn(width, divW), SourceCoord(outY - 1, divH))
      invariant forall outX: nat, oy: nat :: outX < width && oy < outY
                  ==> img[RowStart(oy, width) + outX] == DepthAt(SampledPixel(scene.rows, outX, oy, divW, divH), scale64x)
      invariant forall j :: 0 <= j < img.Length && !(j < RowStart(outY, width)) ==> img[j] == old(img[j])
    {
      var y := SourceCoord(outY, divH);
      var px := RowStart(outY, width);   // (uint16_t *)img + outY * width
      forall oy | 0 <= oy < outY
        ensures RowStart(oy, width) + width <= px
      {
        RowsOrdered(oy, outY, width);
      }
      CaptureDepthRow(img, scene, outY, y, px, width, scale64x, divW, divH);
      RowsOrdered(outY, outY + 1, width);
      outY := outY + 1;
    }
  }
}
