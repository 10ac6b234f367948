/**
 * captureRaw: a 16-bit RGGB Bayer mosaic at the full sensor resolution. The
 * readout cursor is placed on the first pixel once and then every pixel is
 * read in row-major order; each pixel keeps the one color filter of its
 * position, is clamped to saturation, amplified and clamped to the A/D range,
 * and lifted by the black level. The rows are stride pixels apart.
 */
module Raw {
  import opened Common
  import opened Pixel
  import opened SceneModel

  /** The raw output of a scene pixel at sensor position (x, y), before noise. */
  function RawAt(e: Electrons, x: nat, y: nat, gain: nat): (r: U16)
    requires gain <= MaxSensitivity
    ensures BlackLevel <= r <= BlackLevel + MaxRawValue
  {
    RawPreNoise(BayerChannel(e, x, y), gain)
  }

  /**
   * One sensor row y: read its width pixels in order and store them at
   * px0, px0 + 1, ...; the readout starts on (0, y) and ends just past the
   * row's last pixel.
   */
  method CaptureRawRow(img: array<U16>, scene: Scene, y: nat, px0: nat, gain: nat)
    requires scene.Valid() && y < scene.height && gain <= MaxSensitivity
    requires (scene.cursorX, scene.cursorY) == (0, y)
    requires px0 + scene.width <= img.Length
    modifies img, scene`cursorX, scene`cursorY
    ensures scene.Valid()
    ensures (scene.cursorX, scene.cursorY) == scene.Next(scene.width - 1, y)
    ensures forall x :: 0 <= x < scene.width ==> img[px0 + x] == RawAt(scene.rows[y][x], x, y, gain)
    ensures forall j :: 0 <= j < img.Length && !(px0 <= j < px0 + scene.width) ==> img[j] == old(img[j])
  {
    var bayerRow := (y % 2) * 2;
    var px := px0;
    var x := 0;
    while x < scene.width
      invariant x <= scene.width && px == px0 + x && scene.Valid()
      invariant x == 0 ==> (scene.cursorX, scene.cursorY) == (0, y)
      invariant x > 0 ==> (scene.cursorX, scene.cursorY) == scene.Next(x - 1, y)
      invariant forall k :: 0 <= k < x ==> img[px0 + k] == RawAt(scene.rows[y][k], k, y, gain)
      invariant forall j :: 0 <= j < img.Length && !(px0 <= j < px) ==> img[j] == old(img[j])
    {
      assert (scene.cursorX, scene.cursorY) == (x, y);
      var pixel := scene.GetPixelElectrons();
      var electronCount := Channel(pixel, BayerSelect[bayerRow + x % 2]);
      img[px] := RawPreNoise(electronCount, gain);
      px := px + 1;
      x := x + 1;
    }
  }

  /**
   * captureRaw: place the readout on (0, 0) and fill row y of the image,
   * starting at y * stride, with the raw outputs of scene row y. After the
   * whole scene has been read the cursor has wrapped back to (0, 0). Nothing
   * outside the written rows changes: neither the stride padding nor what
   * follows the last row.
   */
  method CaptureRaw(img: array<U16>, scene: Scene, gain: nat, stride: nat)
    requires scene.Valid() && gain <= MaxSensitivity
    requires scene.width <= stride && RowsFit(img.Length, scene.height, stride, scene.width)
    modifies img, scene`cursorX, scene`cursorY
    ensures scene.Valid() && scene.cursorX == 0 && scene.cursorY == 0
    ensures forall x, y :: 0 <= x < scene.width && 0 <= y < scene.height
              ==> img[Offset(y, x, stride)] == RawAt(scene.rows[y][x], x, y, gain)
    ensures forall y, k :: 0 <= y < scene.height && scene.width <= k < stride && Offset(y, k, stride) < img.Length
              ==> img[Offset(y, k, stride)] == old(img[Offset(y, k, stride)])
    ensures forall j :: RowStart(scene.height, stride) <= j < img.Length ==> img[j] == old(img[j])
  {
    scene.SetReadoutPixel(0, 0);
    var y := 0;
    while y < scene.height
      invariant y <= scene.height && scene.Valid() && scene.cursorX == 0
      invariant scene.cursorY == if y < scene.height then y else 0
      invariant forall x, r :: 0 <= x < scene.width && 0 <= r < y
                  ==> img[Offset(r, x, stride)] == RawAt(scene.rows[r][x], x, r, gain)
      invariant forall r, k :: 0 <= r < scene.height && scene.width <= k < stride && Offset(r, k, stride) < img.Length
                  ==> img[Offset(r, k, stride)] == old(img[Offset(r, k, stride)])
      invariant forall j :: RowStart(y, stride) <= j < img.Length ==> img[j] == old(img[j])
    {
      var px := RowStart(y, stride);   // (uint16_t *)img + y * stride
      forall r | 0 <= r < y
        ensures RowStart(r, stride) + stride <= px
      {
        RowsOrdered(r, y, stride);
      }
      forall r | y < r < scene.height
        ensures px + stride <= RowStart(r, stride)
      {
        RowsOrdered(y, r, stride);
      }
      CaptureRawRow(img, scene, y, px, gain);
      RowsOrdered(y, y + 1, stride);
      y := y + 1;
    }
  }
}
