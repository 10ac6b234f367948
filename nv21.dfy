/**
 * captureNV21: an I420 client frame becomes NV21. The luma plane is copied
 * verbatim and the separate U and V planes become one plane of V,U pairs.
 */
module Nv21 {
  import opened Common
  import opened ClientVideo

  /** Size of the NV21 image written: a full Y plane plus one interleaved chroma plane. */
  const Nv21Size: nat := 460800   // YSize * 3 / 2

  /** Alternate V and U samples, V first: the NV21 chroma plane. */
  function Interleave(vs: seq<Byte>, us: seq<Byte>): (r: seq<Byte>)
    requires |vs| == |us|
    ensures |r| == 2 * |vs|
    decreases |vs|
  {
    if |vs| == 0 then []
    else Interleave(vs[..|vs| - 1], us[..|us| - 1]) + [vs[|vs| - 1], us[|us| - 1]]
  }

  /** Position 2k of the chroma plane holds V sample k and position 2k+1 holds U sample k. */
  lemma {:induction false} InterleaveAt(vs: seq<Byte>, us: seq<Byte>, k: nat)
    requires |vs| == |us| && k < |vs|
    ensures Interleave(vs, us)[2 * k] == vs[k]
    ensures Interleave(vs, us)[2 * k + 1] == us[k]
    decreases |vs|
  {
    if k < |vs| - 1 {
      InterleaveAt(vs[..|vs| - 1], us[..|us| - 1], k);
    }
  }

  /** Split an interleaved chroma plane back into its V and U samples. */
  function Deinterleave(s: seq<Byte>): (vu: (seq<Byte>, seq<Byte>))
    requires |s| % 2 == 0
    ensures |vu.0| == |s| / 2 && |vu.1| == |s| / 2
    decreases |s|
  {
    if |s| == 0 then ([], [])
    else
      var rest := Deinterleave(s[..|s| - 2]);
      (rest.0 + [s[|s| - 2]], rest.1 + [s[|s| - 1]])
  }

  /** Interleaving loses nothing: splitting the plane gives back both planes. */
  lemma {:induction false} DeinterleaveInterleave(vs: seq<Byte>, us: seq<Byte>)
    requires |vs| == |us|
    ensures Deinterleave(Interleave(vs, us)) == (vs, us)
    decreases |vs|
  {
    if |vs| > 0 {
      var n := |vs| - 1;
      var s := Interleave(vs, us);
      assert s[..|s| - 2] == Interleave(vs[..n], us[..n]);
      DeinterleaveInterleave(vs[..n], us[..n]);
      assert vs[..n] + [vs[n]] == vs;
      assert us[..n] + [us[n]] == us;
    }
  }

  /** The NV21 image of an I420 frame: its Y plane, then its V and U planes interleaved. */
  function Nv21Of(frame: seq<Byte>): (img: seq<Byte>)
    requires |frame| == I420Size
    ensures |img| == Nv21Size
    ensures img[..YSize] == frame[..YSize]
  {
    frame[..YSize] + Interleave(frame[VPlane..VPlane + ChromaSize], frame[UPlane..UPlane + ChromaSize])
  }

  /** Byte YSize + 2k of the NV21 image is V sample k and byte YSize + 2k + 1 is U sample k. */
  lemma Nv21ChromaAt(frame: seq<Byte>, k: nat)
    requires |frame| == I420Size && k < ChromaSize
    ensures Nv21Of(frame)[YSize + 2 * k] == frame[VPlane + k]
    ensures Nv21Of(frame)[YSize + 2 * k + 1] == frame[UPlane + k]
  {
    InterleaveAt(frame[VPlane..VPlane + ChromaSize], frame[UPlane..UPlane + ChromaSize], k);
  }

  /** The I420 frame an NV21 image came from: its Y plane, then the U and then the V samples. */
  function I420Of(img: seq<Byte>): (frame: seq<Byte>)
    requires |img| == Nv21Size
    ensures |frame| == I420Size
  {
    var vu := Deinterleave(img[YSize..]);
    img[..YSize] + vu.1 + vu.0
  }

  /** The conversion is lossless: converting back gives the original frame. */
  lemma Nv21RoundTrip(frame: seq<Byte>)
    requires |frame| == I420Size
    ensures I420Of(Nv21Of(frame)) == frame
  {
    var vs := frame[VPlane..VPlane + ChromaSize];
    var us := frame[UPlane..UPlane + ChromaSize];
    var img := Nv21Of(frame);
    assert img[YSize..] == Interleave(vs, us);
    DeinterleaveInterleave(vs, us);
    assert frame == frame[..YSize] + us + vs;
  }

  /** memcpy(dst, src, n): the first n bytes of dst become those of src; the rest is untouched. */
  method Memcpy(dst: array<Byte>, src: seq<Byte>, n: nat)
    requires n <= dst.Length && n <= |src|
    modifies dst
    ensures dst[..n] == src[..n]
    ensures dst[n..] == old(dst[n..])
  {
    forall i | 0 <= i < n {
      dst[i] := src[i];
    }
  }

  /**
   * Fill img with the NV21 image of the client frame in the slot clientUsedCount % 8.
   * The requested width and height are ignored: the geometry is forced to 640x480.
   * The consumed-frame counter is not advanced.
   */
  method CaptureNV21(img: array<Byte>, handle: ClientVideoBuffer, gain: nat, width: nat, height: nat)
    requires handle.Valid() && img.Length >= Nv21Size
    modifies img
    ensures img[..Nv21Size] == Nv21Of(handle.CurrentFrame())
    ensures img[Nv21Size..] == old(img[Nv21Size..])
  {
    var bufData := handle.CurrentFrame();
    ghost var want := Nv21Of(bufData);
    var w, h := 640, 480;
    var ySize := w * h;
    var totalSize := w * h * 3 / 2;
    var i420UIndex := ySize;
    var i420VIndex := ySize * 5 / 4;
    // Copy Y.
    Memcpy(img, bufData, ySize);
    assert img[..YSize] == want[..YSize];
    // Interleave V and U.
    var uvIndex := ySize;
    ghost var k := 0;
    while uvIndex < totalSize
      invariant 0 <= k <= ChromaSize
      invariant uvIndex == YSize + 2 * k
      invariant i420UIndex == UPlane + k && i420VIndex == VPlane + k
      invariant img[..YSize] == want[..YSize]
      invariant forall j :: YSize <= j < uvIndex ==> img[j] == want[j]
      invariant img[Nv21Size..] == old(img[Nv21Size..])
    {
      Nv21ChromaAt(bufData, k);
      img[uvIndex + 1], img[uvIndex] := bufData[i420UIndex], bufData[i420VIndex];
      i420UIndex, i420VIndex := i420UIndex + 1, i420VIndex + 1;
      uvIndex := uvIndex + 2;
      k := k + 1;
    }
    assert forall j :: 0 <= j < Nv21Size ==> img[j] == want[j] by {
      forall j | 0 <= j < Nv21Size ensures img[j] == want[j] {
        if j < YSize { assert img[..YSize][j] == want[..YSize][j]; }
      }
    }
    assert img[..Nv21Size] == want;
  }
}
