/**
 * The external video-frame source the RGBA and NV21 synthesizers read: a ring
 * of eight I420 (planar YUV 4:2:0) frames of 640x480, a counter of frames
 * received and a counter of frames consumed. The source reaches it through a
 * global singleton (ClientVideoBuffer::getClientInstance); here it is passed
 * in. Its declaration (VirtualBuffer.h) is not part of this model.
 */
module ClientVideo {
  import opened Common

  /** The geometry every client frame has, and that the RGBA and NV21 paths force. */
  const FrameWidth: nat := 640
  const FrameHeight: nat := 480

  /** I420 layout: the Y plane, then the U plane, then the V plane, each chroma plane a quarter of Y. */
  const YSize: nat := 307200      // FrameWidth * FrameHeight
  const ChromaSize: nat := 76800   // YSize / 4
  const UPlane: nat := 307200      // YSize
  const VPlane: nat := 384000      // YSize * 5 / 4
  const I420Size: nat := 460800    // YSize * 3 / 2

  const RingSlots: nat := 8

  class ClientVideoBuffer {
    var clientBuf: seq<seq<Byte>>
    var clientRevCount: nat
    var clientUsedCount: nat

    ghost predicate Valid()
      reads this
    {
      |clientBuf| == RingSlots && forall i :: 0 <= i < |clientBuf| ==> |clientBuf[i]| == I420Size
    }

    constructor (frames: seq<seq<Byte>>)
      requires |frames| == RingSlots && forall i :: 0 <= i < |frames| ==> |frames[i]| == I420Size
      ensures Valid() && clientBuf == frames && clientRevCount == 0 && clientUsedCount == 0
    {
      clientBuf := frames;
      clientRevCount := 0;
      clientUsedCount := 0;
    }

    /** The frame a synthesizer reads next: slot clientUsedCount % 8 of the ring. */
    function CurrentFrame(): (f: seq<Byte>)
      reads this
      requires Valid()
      ensures |f| == I420Size
    {
      clientBuf[clientUsedCount % RingSlots]
    }
  }

  /** The chroma planes sit where the I420 layout puts them and end where the frame ends. */
  lemma I420Layout()
    ensures YSize == FrameWidth * FrameHeight && YSize == 4 * ChromaSize
    ensures UPlane == YSize && VPlane == YSize * 5 / 4 && I420Size == YSize * 3 / 2
    ensures UPlane + ChromaSize == VPlane && VPlane + ChromaSize == I420Size
  {
  }
}
