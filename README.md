# Virtual camera sensor: a Dafny model

This project models the simulated camera sensor of the virtual camera HAL
(`camera/virtualcamera/fake-pipeline2/Sensor.cpp`). It has two parts.

- **Format synthesizers.** They fill an output image in place from the
  scene's electron samples, or from an external I420 video frame.
  - `captureNV21` converts I420 to NV21: it copies the Y plane and interleaves
    V and U.
  - `captureRGBA` converts I420 to RGBA with fixed-point BT.601 coefficients
    scaled by 2^14, clamped by `CLAP`, with alpha 0xff. It also advances the
    frame source's consumed counter.
  - `captureRGB` and `captureDepth` are nearest-neighbour downsamplers. They
    read the scene through its readout cursor and apply saturating per-pixel
    clamps.
  - `captureRaw` (its integer part) produces an RGGB Bayer mosaic: the
    channel chosen by pixel parity, the saturation clamp, the A/D clamp and the
    black level.
- **Control and readout state machine.**
  - The constructor defaults and the control setters.
  - The capture thread's loop body, as a sequential step:
    - stage 1 snapshots the controls, consumes the pending buffer set and
      raises VSync;
    - stage 3 hands the frame started by the previous pass into a single slot;
    - stage 2 timestamps and starts the next capture and dispatches each
      buffer by format. A non-depth BLOB request appends an auxiliary RGBA
      buffer, which the same dispatch loop then captures.
  - `waitForNewFrame`, which empties the slot.

Modules:

| Module | Contents |
|---|---|
| `Common` | Fixed-width integer types, `Option`, row layout of strided images. |
| `Pixel` | Sensor constants and the per-pixel formulas. |
| `ClientVideo` | The ring of eight I420 frames the RGBA and NV21 paths read. |
| `SceneModel` | The scene's samples and readout cursor. |
| `Nv21`, `Rgba`, `Downsample`, `Raw` | The synthesizers. |
| `SensorEngine` | The state machine. |

Each synthesizer is a method with loops over an `array`. It is proved against
a specification:

- a function of the input frame (`Nv21Of`, `RgbaImage`);
- or per-pixel functions of the sampled scene pixel (`RgbAt`, `DepthAt`,
  `RawAt`).

Each also states what it leaves untouched. The state machine is a class. Its
methods are tied to pure step functions (`LoopStep`, `WaitStep`, `Snapshot`,
`Publish`), and the pipeline properties are proved about those functions.

Choices where the code leaves room:

- Non-depth BLOB requests: the code's comment assumes one per request, but
  the code appends one auxiliary buffer for every one of them and relies on no
  such limit. `CaptureBuffers` follows the code and does not require a single
  BLOB.
- Scene size: the scene has the sensor's resolution, as the constructor builds
  it.

## Model

| member | source | states |
|---|---|---|
| `Pixel.Clap` | camera/virtualcamera/fake-pipeline2/Sensor.cpp:35-37 | CLAP returns a value in 0..255 unchanged, gives 0 below that range and 255 above it. |
| `Pixel.ClapFixesExactlyBytes` | camera/virtualcamera/fake-pipeline2/Sensor.cpp:35-37 | CLAP leaves a value unchanged exactly when it lies in 0..255. |
| `Pixel.Asr14` | camera/virtualcamera/fake-pipeline2/Sensor.cpp:485-488 | `>> 14` on a signed int rounds toward negative infinity: q*2^14 <= a < (q+1)*2^14, also for negative a. |
| `Pixel.YuvToRgba` | camera/virtualcamera/fake-pipeline2/Sensor.cpp:485-494 | One RGBA pixel has four bytes, every channel is in 0..255, and alpha is 0xff. |
| `Pixel.NeutralChromaIsGray` | camera/virtualcamera/fake-pipeline2/Sensor.cpp:463-464 | With U = V = 128 the fixed-point offsets cancel: the pixel is exactly (y, y, y, 0xff). |
| `Pixel.YuvToRgbaMonotoneInLuma` | camera/virtualcamera/fake-pipeline2/Sensor.cpp:485-488 | For fixed chroma, R, G and B never decrease as luma grows. |
| `Pixel.RgbByte` | camera/virtualcamera/fake-pipeline2/Sensor.cpp:555-557 | An RGB channel is min(count/64, 255), so it never exceeds 255. Below 255*64 it is the floor of count/64. |
| `Pixel.Dither` | camera/virtualcamera/fake-pipeline2/Sensor.cpp:548-553 | The ordered dither `(outX + outY) % 64` added to each RGB channel is below 64. |
| `Pixel.RgbCount` | camera/virtualcamera/fake-pipeline2/Sensor.cpp:548-553 | The uint32 channel count, whose sum and product both wrap, equals (electrons + dither) * scale64x reduced modulo 2^32. |
| `Pixel.RgbCountExact` | camera/virtualcamera/fake-pipeline2/Sensor.cpp:548-553 | When (electrons + 63) * scale64x fits in 32 bits, the channel count is the exact (electrons + dither) * scale64x. |
| `Pixel.DepthCount` | camera/virtualcamera/fake-pipeline2/Sensor.cpp:647 | The uint32 depth count never exceeds Gr * scale64x and equals it when the product fits in 32 bits. |
| `Pixel.DepthCode` | camera/virtualcamera/fake-pipeline2/Sensor.cpp:648 | A depth code is always < 8191. It is floor(count/64) below 8191*64 and 0 at or above. |
| `Pixel.BayerChannel` | camera/virtualcamera/fake-pipeline2/Sensor.cpp:404-412 | `{R, Gr, Gb, B}[(y&1)*2 + (x&1)]`: even/even is R, even row/odd column is Gr, odd row/even column is Gb, odd/odd is B. |
| `Pixel.RawPreNoise` | camera/virtualcamera/fake-pipeline2/Sensor.cpp:414-430 | The pre-noise raw count lies in [kBlackLevel, kBlackLevel + kMaxRawValue] = [1000, 5000]. |
| `Pixel.RawPreNoiseMonotone` | camera/virtualcamera/fake-pipeline2/Sensor.cpp:414-422 | The raw response never decreases as the electron count grows. |
| `Pixel.RawPreNoiseSaturates` | camera/virtualcamera/fake-pipeline2/Sensor.cpp:414-422 | With at least the minimum sensitivity, a pixel at or beyond 2000 electrons reads exactly 4000 + 1000. |
| `Common.Wrap32` | camera/virtualcamera/fake-pipeline2/Sensor.cpp:548-553 | A uint32 result is the exact value when it fits, and otherwise agrees with it modulo 2^32. |
| `Common.RowsFitBySize` | camera/virtualcamera/fake-pipeline2/Sensor.cpp:534 | Rows of `stride` elements at `row * stride` all fit in an image exactly when it holds rows * stride elements. |
| `Common.RowsFitByLast` | camera/virtualcamera/fake-pipeline2/Sensor.cpp:408 | Strided rows fit when the last one does. |
| `ClientVideo.ClientVideoBuffer.CurrentFrame` | camera/virtualcamera/fake-pipeline2/Sensor.cpp:452-453 | The frame read is slot clientUsedCount % 8 of the ring, a full I420 frame. |
| `Rgba.RgbaLayout` | camera/virtualcamera/fake-pipeline2/Sensor.cpp:443-475 | The literals indexing the RGBA image are the frame geometry: 640 pixels and 2560 bytes per row, 320 x 240 chroma samples, 640*480*4 = 1228800 bytes. |
| `ClientVideo.I420Layout` | camera/virtualcamera/fake-pipeline2/Sensor.cpp:602-605 | The U plane starts at ySize and the V plane at ySize*5/4. Each is ySize/4 long, and the frame is ySize*3/2 bytes. |
| `Nv21.InterleaveAt` | camera/virtualcamera/fake-pipeline2/Sensor.cpp:609-612 | Byte 2k of the chroma plane is V sample k and byte 2k+1 is U sample k. |
| `Nv21.DeinterleaveInterleave` | camera/virtualcamera/fake-pipeline2/Sensor.cpp:609-612 | Interleaving is invertible: splitting the plane gives back both chroma planes. |
| `Nv21.Nv21Of` | camera/virtualcamera/fake-pipeline2/Sensor.cpp:599-612 | The NV21 image is exactly ySize*3/2 bytes, and its first ySize bytes are the source's Y plane. |
| `Nv21.Nv21ChromaAt` | camera/virtualcamera/fake-pipeline2/Sensor.cpp:609-612 | `img[ySize+2k]` is `bufData[ySize*5/4 + k]` (V) and `img[ySize+2k+1]` is `bufData[ySize + k]` (U). |
| `Nv21.Nv21RoundTrip` | camera/virtualcamera/fake-pipeline2/Sensor.cpp:599-612 | The I420-to-NV21 conversion loses nothing: converting back gives the original frame. |
| `Nv21.Memcpy` | camera/virtualcamera/fake-pipeline2/Sensor.cpp:607 | memcpy copies exactly the first n bytes and leaves the rest of the destination unchanged. |
| `Nv21.CaptureNV21` | camera/virtualcamera/fake-pipeline2/Sensor.cpp:584-619 | With the geometry forced to 640x480, the first 460800 bytes of img become the NV21 image of the current client frame. Nothing beyond them changes. |
| `Rgba.LumaIndex` | camera/virtualcamera/fake-pipeline2/Sensor.cpp:467-468 | The luma sample of an in-frame pixel lies inside the Y plane. |
| `Rgba.ChromaIndex` | camera/virtualcamera/fake-pipeline2/Sensor.cpp:469-470 | The chroma sample of an in-frame pixel lies inside a chroma plane. |
| `Rgba.PixelRgba` | camera/virtualcamera/fake-pipeline2/Sensor.cpp:477-494 | A pixel's color is four bytes with alpha 0xff, from its own luma and its block's centered U and V. |
| `Rgba.RgbaImage` | camera/virtualcamera/fake-pipeline2/Sensor.cpp:472-518 | The RGBA image of a frame is 640*480*4 bytes. |
| `Rgba.PixelOfByte` | camera/virtualcamera/fake-pipeline2/Sensor.cpp:472-473 | Every byte of the output belongs to exactly one pixel and channel, row-major with four bytes per pixel. |
| `Rgba.RgbaImageAt` | camera/virtualcamera/fake-pipeline2/Sensor.cpp:485-510 | Bytes 4i..4i+3 of the image, with i = 640y + x, are the color of pixel (x, y). |
| `Rgba.RgbaImageIsImage` | camera/virtualcamera/fake-pipeline2/Sensor.cpp:472-518 | The image function meets the pixel-by-pixel description of the RGBA output. |
| `Rgba.RgbaImageUnique` | camera/virtualcamera/fake-pipeline2/Sensor.cpp:472-518 | Any byte sequence meeting that description is the image: each byte is written with one determined value. |
| `Rgba.RgbaOpaque` | camera/virtualcamera/fake-pipeline2/Sensor.cpp:489 | Every fourth byte (alpha) of the RGBA image is 0xff. |
| `Rgba.BlockSharesChroma` | camera/virtualcamera/fake-pipeline2/Sensor.cpp:476-480 | All four pixels of block (cx, cy) read chroma sample 320*cy + cx. |
| `Rgba.ChromaSharedIffSameBlock` | camera/virtualcamera/fake-pipeline2/Sensor.cpp:475-513 | Two pixels use the same U/V pair exactly when they lie in the same 2x2 block. |
| `Rgba.StorePixel` | camera/virtualcamera/fake-pipeline2/Sensor.cpp:485-489 | The four stores of one pixel put its color at p..p+3 and touch nothing else. |
| `Rgba.ConvertBlock` | camera/virtualcamera/fake-pipeline2/Sensor.cpp:477-512 | One U,V read colors the two pixels at pD1 and the two at pD2, and writes nothing else. |
| `Rgba.ConvertRowPair` | camera/virtualcamera/fake-pipeline2/Sensor.cpp:476-513 | One pass of the row loop writes bytes 2560h .. 2560h + 5120, both output rows of the row pair, as the RGBA image has them; nothing else changes, and each pointer advances by one row. |
| `Rgba.CaptureRGBA` | camera/virtualcamera/fake-pipeline2/Sensor.cpp:443-520 | The geometry is forced to 640x480. img[0..1228800) becomes the RGBA image of frame clientUsedCount % 8. clientUsedCount grows by exactly 1, and the rest of img is unchanged. |
| `SceneModel.Scene.Next` | camera/virtualcamera/fake-pipeline2/Sensor.cpp:537-543 | The pixel after an in-range pixel in readout order is in range. |
| `SceneModel.Scene.SetReadoutPixel` | camera/virtualcamera/fake-pipeline2/Sensor.cpp:535 | The cursor is placed on (x, y). |
| `SceneModel.Scene.GetPixelElectrons` | camera/virtualcamera/fake-pipeline2/Sensor.cpp:543 | Returns the samples under the cursor and moves the cursor one pixel on. |
| `SceneModel.Scene.constructor` | camera/virtualcamera/fake-pipeline2/Sensor.cpp:107 | The scene has the given size and samples, with the cursor on (0, 0). |
| `SceneModel.RowMajorInRange` | camera/virtualcamera/fake-pipeline2/Sensor.cpp:405-412 | The row-major index of an in-range pixel is below width*height. |
| `SceneModel.NextIsRowMajorSuccessor` | camera/virtualcamera/fake-pipeline2/Sensor.cpp:405-412 | Readout order is row-major order, wrapping from the last pixel to the first. |
| `Downsample.SourceCoord` | camera/virtualcamera/fake-pipeline2/Sensor.cpp:533-540 | `out * div >> 10` is out * div divided by 2^10 and rounded down: r*1024 <= out*div < r*1024 + 1024. |
| `Downsample.SourceCoordMonotone` | camera/virtualcamera/fake-pipeline2/Sensor.cpp:540 | `outX * DivW >> 10` never decreases in outX, so the cursor only moves forward along a row. |
| `Downsample.SourceCoordUnit` | camera/virtualcamera/fake-pipeline2/Sensor.cpp:529-530 | With the unit ratio 1 << 10, output coordinate n samples scene coordinate n. |
| `Downsample.CoversByLast` | camera/virtualcamera/fake-pipeline2/Sensor.cpp:533 | Every output coordinate samples inside the scene exactly when the last one does. |
| `Downsample.RgbAt` | camera/virtualcamera/fake-pipeline2/Sensor.cpp:548-557 | An RGB channel byte is min(count / 64, 255) of its channel's dithered, scaled count: the floor of count/64 below 255, and 255 exactly from a count of 255 * 64 on. |
| `Downsample.DepthAt` | camera/virtualcamera/fake-pipeline2/Sensor.cpp:647-648 | A depth output is always < 8191. |
| `Downsample.SeekColumn` | camera/virtualcamera/fake-pipeline2/Sensor.cpp:541-546 | Reading x - lastX more pixels moves the readout from column lastX to column x and yields pixel (x, y). |
| `Downsample.StoreRgb` | camera/virtualcamera/fake-pipeline2/Sensor.cpp:548-557 | The three stores put the clamped R, Gr and B channels of one pixel at px..px+2, and touch nothing else. |
| `Downsample.CaptureRgbRow` | camera/virtualcamera/fake-pipeline2/Sensor.cpp:533-558 | The row restarts the readout at (0, y) and stores, for every outX, the channels of scene pixel (outX*DivW >> 10, y). Nothing outside the row changes, and the readout ends just past the last sampled column. |
| `Downsample.CaptureRGB` | camera/virtualcamera/fake-pipeline2/Sensor.cpp:522-561 | Byte outY*width*3 + 3*outX + c is channel c of scene pixel (outX*DivW >> 10, outY*DivH >> 10). Nothing past the height rows changes. |
| `Downsample.CaptureDepthRow` | camera/virtualcamera/fake-pipeline2/Sensor.cpp:633-649 | The same as CaptureRgbRow, with one depth code per output pixel. |
| `Downsample.CaptureDepth` | camera/virtualcamera/fake-pipeline2/Sensor.cpp:621-654 | Element outY*width + outX is the depth code of the sampled scene pixel. Nothing past the height rows changes. |
| `Raw.RawAt` | camera/virtualcamera/fake-pipeline2/Sensor.cpp:409-430 | The raw output of a pixel lies in [1000, 5000]. |
| `Raw.CaptureRawRow` | camera/virtualcamera/fake-pipeline2/Sensor.cpp:407-436 | Reading row y in order stores the Bayer raw value of each pixel at px0 + x. Nothing else changes. |
| `Raw.CaptureRaw` | camera/virtualcamera/fake-pipeline2/Sensor.cpp:396-441 | The readout is placed once at (0, 0), and element y*stride + x is the raw value of pixel (x, y). The stride padding and everything after the last row are untouched. After the full frame the cursor has wrapped to (0, 0). |
| `SensorEngine.CaptureOf` | camera/virtualcamera/fake-pipeline2/Sensor.cpp:327-374 | A buffer produces no output exactly when its format is YV12, unknown, or a non-depth BLOB. |
| `SensorEngine.NeedsAux` | camera/virtualcamera/fake-pipeline2/Sensor.cpp:338 | Only a BLOB gets an auxiliary buffer, and a BLOB gets one exactly when its data space is not depth. |
| `SensorEngine.AuxBuffer` | camera/virtualcamera/fake-pipeline2/Sensor.cpp:337-353 | The auxiliary buffer is RGBA_8888 and never itself asks for another. |
| `SensorEngine.AuxBufferAsWritten` | camera/virtualcamera/fake-pipeline2/Sensor.cpp:351-352 | The allocation as written: RGBA_8888 with stride = width. |
| `SensorEngine.AuxOf` | camera/virtualcamera/fake-pipeline2/Sensor.cpp:321-353 | At most one auxiliary buffer per request; each is RGBA and appends nothing further. |
| `SensorEngine.Expanded` | camera/virtualcamera/fake-pipeline2/Sensor.cpp:321-353 | The vector after dispatch keeps the request as its prefix and at most doubles. |
| `SensorEngine.CapturesOf` | camera/virtualcamera/fake-pipeline2/Sensor.cpp:321-374 | One synthesizer call per buffer. |
| `SensorEngine.AuxOfLength` | camera/virtualcamera/fake-pipeline2/Sensor.cpp:337-353 | There are exactly as many auxiliary buffers as non-depth BLOB requests. |
| `SensorEngine.AuxOfAt` | camera/virtualcamera/fake-pipeline2/Sensor.cpp:337-353 | Request k's auxiliary buffer sits behind those of earlier requests, with stream 0, the request's width and height, stride = width and RGBA_8888. |
| `SensorEngine.AuxCapturedSameIteration` | camera/virtualcamera/fake-pipeline2/Sensor.cpp:321 | Because the loop re-reads `size()`, the dispatch captures the auxiliary buffer as RGBA at the request's geometry in the same pass. |
| `SensorEngine.CaptureBuffers` | camera/virtualcamera/fake-pipeline2/Sensor.cpp:321-375 | The loop ends with the request plus its auxiliary buffers, and calls each buffer's synthesizer in order. |
| `SensorEngine.InitialState` | camera/virtualcamera/fake-pipeline2/Sensor.cpp:100-107 | The defaults are exposure 33331760 - 10000, frame duration 33331760, gain 100, frame 0, no VSync, and no buffers, listener or pending capture. |
| `SensorEngine.LoopStep` | camera/virtualcamera/fake-pipeline2/Sensor.cpp:248-307 | After a pass the pending set is NULL and VSync is raised. The slot holds the previous pass's capture if there was one, and is unchanged otherwise. The new capture is timestamped now + mRowReadoutTime + kMinVerticalBlank and exists exactly when a set was pending. Without a set there are no calls and no event. |
| `SensorEngine.Snapshot` | camera/virtualcamera/fake-pipeline2/Sensor.cpp:248-263 | Stage 1 leaves mNextBuffers NULL and mGotVSync true, and changes no other field. |
| `SensorEngine.Publish` | camera/virtualcamera/fake-pipeline2/Sensor.cpp:278-301 | When the previous pass started a capture, stage 3 puts it and its capture time in the slot; otherwise the state is unchanged. No other field changes. |
| `SensorEngine.WaitStep` | camera/virtualcamera/fake-pipeline2/Sensor.cpp:192-211 | Succeeds exactly when the slot is full, returns mCaptureTime and empties the slot. On failure nothing changes. |
| `SensorEngine.PublishedNextPass` | camera/virtualcamera/fake-pipeline2/Sensor.cpp:278-307 | A set snapshotted in pass N is not published by pass N; once the consumer has emptied the slot, pass N+1 publishes it with pass N's timestamp. |
| `SensorEngine.ConsumedOnce` | camera/virtualcamera/fake-pipeline2/Sensor.cpp:255-261 | After a pass has consumed the pending set, the next pass without a new set starts no capture and makes no calls. |
| `SensorEngine.HandoffConserves` | camera/virtualcamera/fake-pipeline2/Sensor.cpp:286-298 | In any interleaving of the six control setters (exposure time, frame duration, sensitivity, destination buffers, NULL included, frame number, listener), loop passes and waits, frames consumed plus frames left in the slot equal frames published plus the slot's initial frame. None is lost or delivered twice. |
| `SensorEngine.Sensor.constructor` | camera/virtualcamera/fake-pipeline2/Sensor.cpp:100-111 | The sensor starts in the default state, and a row reads out in floor(33331760 / height) ns. |
| `SensorEngine.Sensor.StartUp` | camera/virtualcamera/fake-pipeline2/Sensor.cpp:115-128 | startUp empties the handoff slot and changes nothing else. |
| `SensorEngine.Sensor.ReadyToRun` | camera/virtualcamera/fake-pipeline2/Sensor.cpp:221-228 | The thread start records the start time and clears the pending capture. |
| `SensorEngine.Sensor.SetExposureTime` | camera/virtualcamera/fake-pipeline2/Sensor.cpp:144-149 | Overwrites the exposure time and nothing else. |
| `SensorEngine.Sensor.SetFrameDuration` | camera/virtualcamera/fake-pipeline2/Sensor.cpp:151-156 | Overwrites the frame duration and nothing else. |
| `SensorEngine.Sensor.SetSensitivity` | camera/virtualcamera/fake-pipeline2/Sensor.cpp:158-163 | Overwrites the gain and nothing else. |
| `SensorEngine.Sensor.SetDestinationBuffers` | camera/virtualcamera/fake-pipeline2/Sensor.cpp:165-169 | Overwrites the pending buffer set and nothing else. |
| `SensorEngine.Sensor.SetFrameNumber` | camera/virtualcamera/fake-pipeline2/Sensor.cpp:171-175 | Overwrites the frame number and nothing else. |
| `SensorEngine.Sensor.SetSensorListener` | camera/virtualcamera/fake-pipeline2/Sensor.cpp:215-219 | Overwrites the listener and nothing else. |
| `SensorEngine.Sensor.WaitForNewFrame` | camera/virtualcamera/fake-pipeline2/Sensor.cpp:192-211 | The state change and result are those of WaitStep. |
| `SensorEngine.Sensor.ThreadLoop` | camera/virtualcamera/fake-pipeline2/Sensor.cpp:230-375 | The new state, the synthesizer calls and the listener event are those of LoopStep. |
| `SensorEngine.Sensor.ReadControls` | camera/virtualcamera/fake-pipeline2/Sensor.cpp:248-263 | Stage 1 returns the controls as they were, sets mNextBuffers to NULL and mGotVSync to true, and changes nothing else. |
| `SensorEngine.Sensor.ReadOut` | camera/virtualcamera/fake-pipeline2/Sensor.cpp:269-301 | Stage 3 moves the previous capture and its time into the slot. The simulated time is now + row readout + 10000. |
| `SensorEngine.Sensor.StartCapture` | camera/virtualcamera/fake-pipeline2/Sensor.cpp:303-375 | Stage 2 timestamps the new capture, expands the set with auxiliary buffers, dispatches every buffer and raises EXPOSURE_START only with a listener. |
| `SensorEngine.AuxAsWrittenTooSmall` | camera/virtualcamera/fake-pipeline2/Sensor.cpp:351-352 | For a 640x480 BLOB the allocation as written holds 921600 bytes. The RGBA_8888 buffer it describes needs 1228800, which is what captureRGBA writes. |
| `SensorEngine.AuxHoldsRgbaImage` | camera/virtualcamera/fake-pipeline2/Sensor.cpp:337-353 | The corrected allocation holds four bytes per pixel of stride x height. At 640x480 that is exactly the 1228800 bytes captureRGBA writes. |

## Left out

- Floating-point arithmetic, given as integer parameters or exact values:
  - the float `totalGain`, `scale64x`, `DivH` and `DivW` computations (Sensor.cpp:526-530, 626-630), which are method parameters;
  - the float multiply in captureRaw, modelled as exact integer arithmetic;
  - the float time conversions in the Scene calls.
- Raw noise: `sqrtf_approx`, the read and photon noise terms, and `std::rand`. The raw output is the pre-noise value.
- `captureDepthCloud` (float jitter and random noise). The dispatch records only that it is called.
- `saveNV21` (file output) and the `debug_picture_take` switch.
- `waitForVSync`. Its blocking wait on a condition variable is not modelled. The `mGotVSync` flag that stage 1 raises is.
- Threading and timing:
  - `run`, `shutDown` and `requestExitAndWait`;
  - the mutexes and the `mVSync`, `mReadoutAvailable` and `mReadoutComplete` signals;
  - `systemTime`, which is passed in as `now`;
  - the `nanosleep` pacing.

  The stage 3 backpressure wait is the precondition `LoopCanRun`. A timed-out `waitForNewFrame` is the failed outcome.
- Scene.cpp is not part of this model: `calculateScene`, `setExposureDuration` and how samples are computed. The samples are given, and the cursor wraps in row-major order.
- The `ClientVideoBuffer::getClientInstance` singleton is passed in as a parameter. Its declaration (VirtualBuffer.h) is not part of this model.
- Buffers are values. The `push_back` of the auxiliary buffer is seen in the sensor's own copy of the vector; aliasing with the caller's vector is not modelled. The auxiliary buffer's `buffer` and `img` pointers are reduced to an allocation size, and its uninitialised `dataSpace` is a fixed value (unused, since the format is RGBA). The size is the corrected one (see the next line and Findings).
- The listener callback and the synthesizer calls are returned as values rather than made. Stage 2's capture calls are specified per buffer by format, and their pixel effects are the synthesizer methods above.
- `mNextCapturedBuffers`, `mNextCaptureTime` and `mStartupTime` are uninitialised between the constructor and `readyToRun`, which sets them. `mCaptureTime` stays uninitialised until the first stage 3 handoff sets it. The model starts all four at `None` and 0.
- `SensorEngine.AuxOf`: the dispatch appends the corrected auxiliary buffer `AuxBuffer`, of `4 * w * h` bytes. It does not use the source's `w * h * 3` allocation at Sensor.cpp:351-352, which `AuxBufferAsWritten` models and the Findings table records. The same holds for `Expanded`, `CaptureBuffers`, `LoopStep` and the `ThreadLoop`/`StartCapture` methods built on it. Even 4 * w * h bytes suffices only for BLOBs of at least 640x480, because captureRGBA writes a fixed 640x480 image.
- `Rgba.CaptureRGBA`: requires `img.Length >= 1228800`. The source ignores the buffer's declared width, height and size and always writes a 640x480 RGBA image of 1228800 bytes, so a smaller buffer is overrun. That out-of-bounds write is not modelled.
- `Nv21.CaptureNV21`: requires `img.Length >= 460800`. As with captureRGBA, the source always writes a 640x480 NV21 image of 460800 bytes, whatever the buffer's geometry, and overruns a smaller buffer. That write is not modelled.
- `Raw.CaptureRaw`: requires `width <= stride`. With a stride below the sensor width, the source's rows overlap and later rows overwrite the start of earlier ones. That overlap is not modelled.
- `SensorEngine.LoopStep`: `nsecs_t` (int64) time arithmetic is unbounded; overflow is not modelled.
- `Downsample.CaptureRGB`: the 32-bit wrap of `outY * DivH` and `outX * DivW` is not modelled. The callers' guarantee that every sample falls inside the scene (`Covers`), which the float ratios provide, is a precondition.
- `Downsample.CaptureDepth`: as for CaptureRGB.
- `Raw.CaptureRaw`: requires gain <= 1600, the top of the sensitivity range. Beyond about 1638 the float-to-`uint16_t` conversion of the amplified count overflows, which is not modelled.
- YV12 and unknown formats are logged and left unwritten. Only the `NoOutput` outcome is modelled, not the log.

## Findings

| source | as written | input that shows it | evidently intended | confidence | as-written member | corrected member |
|---|---|---|---|---|---|---|
| camera/virtualcamera/fake-pipeline2/Sensor.cpp:351-352 | The auxiliary RGBA_8888 buffer gets `b.width * b.height * 3` bytes: three per pixel for a four-byte-per-pixel format. | A 640x480 non-depth BLOB request gets 921600 bytes. captureRGBA then writes 1228800 bytes into it in the same pass. | `4 * b.width * b.height` bytes, room for the declared RGBA_8888 geometry. | not executed | `SensorEngine.AuxBufferAsWritten` with `SensorEngine.AuxAsWrittenTooSmall` | `SensorEngine.AuxBuffer` with `SensorEngine.AuxHoldsRgbaImage` |
