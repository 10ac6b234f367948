/**
 * The scene renderer as the sensor sees it: one electron sample per sensor
 * pixel, read through a readout cursor. SetReadoutPixel places the cursor on a
 * pixel; GetPixelElectrons returns the samples under it and moves it one pixel
 * on in row-major order, wrapping from the end of a row to the start of the
 * next and from the last row back to the first. How the renderer computes the
 * samples (Scene.cpp: calculateScene, setExposureDuration) is not part of this
 * model: the samples are given.
 */
module SceneModel {
  import opened Common
  import opened Pixel

  class Scene {
    const width: nat
    const height: nat
    /** rows[y][x]: the electron samples of pixel (x, y). */
    var rows: seq<seq<Electrons>>
    var cursorX: nat
    var cursorY: nat

    ghost predicate Valid()
      reads this
    {
      width > 0 && height > 0 && |rows| == height &&
      (forall y :: 0 <= y < |rows| ==> |rows[y]| == width) &&
      cursorX < width && cursorY < height
    }

    constructor (width: nat, height: nat, rows: seq<seq<Electrons>>)
      requires width > 0 && height > 0 && |rows| == height
      requires forall y :: 0 <= y < |rows| ==> |rows[y]| == width
      ensures Valid()
      ensures this.width == width && this.height == height && this.rows == rows
      ensures cursorX == 0 && cursorY == 0
    {
      this.width := width;
      this.height := height;
      this.rows := rows;
      cursorX, cursorY := 0, 0;
    }

    /** The pixel after (x, y) in readout order. */
    function Next(x: nat, y: nat): (p: (nat, nat))
      requires x < width && y < height
      ensures p.0 < width && p.1 < height
    {
      if x + 1 < width then (x + 1, y)
      else (0, if y + 1 < height then y + 1 else 0)
    }

    /** Position the cursor on pixel (x, y). */
    method SetReadoutPixel(x: nat, y: nat)
      requires Valid() && x < width && y < height
      modifies this`cursorX, this`cursorY
      ensures Valid() && cursorX == x && cursorY == y
    {
      cursorX, cursorY := x, y;
    }

    /** The samples under the cursor; the cursor moves on to the next pixel. */
    method GetPixelElectrons() returns (e: Electrons)
      requires Valid()
      modifies this`cursorX, this`cursorY
      ensures Valid()
      ensures e == rows[old(cursorY)][old(cursorX)]
      ensures (cursorX, cursorY) == Next(old(cursorX), old(cursorY))
    {
      e := rows[cursorY][cursorX];
      cursorX := cursorX + 1;
      if cursorX >= width {
        cursorX := 0;
        cursorY := cursorY + 1;
        if cursorY >= height {
          cursorY := 0;
        }
      }
    }
  }

  /** The row-major index of pixel (x, y) in a scene w pixels wide. */
  function RowMajor(x: nat, y: nat, w: nat): nat
  {
    y * w + x
  }

  /** A row-major index of an in-range pixel is in range. */
  lemma RowMajorInRange(x: nat, y: nat, w: nat, h: nat)
    requires x < w && y < h
    ensures RowMajor(x, y, w) < w * h
  {
    MulMonotone(y + 1, h, w);
  }

  /** Readout order is row-major order, cyclic over the whole scene. */
  lemma NextIsRowMajorSuccessor(s: Scene, x: nat, y: nat)
    requires s.Valid() && x < s.width && y < s.height
    ensures RowMajor(s.Next(x, y).0, s.Next(x, y).1, s.width)
            == (RowMajor(x, y, s.width) + 1) % (s.width * s.height)
  {
    var w, h := s.width, s.height;
    RowMajorInRange(x, y, w, h);
    var i := RowMajor(x, y, w);
    if x + 1 < w {
      RowMajorInRange(x + 1, y, w, h);
    } else if y + 1 < h {
      assert RowMajor(0, y + 1, w) == i + 1;
      RowMajorInRange(0, y + 1, w, h);
    } else {
      assert i + 1 == w * h by {
        assert (y + 1) * w == y * w + w;
      }
    }
  }
}
