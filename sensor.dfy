/**
 * The sensor's control and readout state machine, taken as a sequential
 * machine: the control setters, the capture thread's loop body (stage 1
 * snapshot of the controls, stage 3 handoff of the previous frame, stage 2
 * start of the next capture with its per-buffer dispatch) and the consumer's
 * waitForNewFrame. A blocking wait becomes a precondition (the readout thread
 * waits for the consumer to empty the handoff slot) or an explicit outcome
 * (waitForNewFrame fails when nothing is in the slot).
 *
 * Buffer sets are values: `Some(bufs)` for a pointer to a vector of stream
 * buffers, `None` for NULL.
 */
module SensorEngine {
  import opened Common
  import Rgba

  // Timing limits, in nanoseconds.
  const ExposureTimeMin: nat := 1000
  const ExposureTimeMax: nat := 300000000
  const FrameDurationMin: nat := 33331760   // about 1/30 s
  const FrameDurationMax: nat := 300000000
  const MinVerticalBlank: nat := 10000

  /** The HAL pixel formats the dispatch distinguishes; any other code produces no output. */
  datatype PixelFormat = Raw16 | Rgb888 | Rgba8888 | Blob | YCbCr420888 | Yv12 | Y16 | OtherFormat(code: int)

  /** Whether a BLOB stream carries depth data (a point cloud) or not (a JPEG). */
  datatype DataSpace = DepthSpace | OtherSpace

  /** One output buffer of a request: its stream, geometry, format and the bytes allocated for its image. */
  datatype StreamBuffer = StreamBuffer(streamId: int, width: nat, height: nat, format: PixelFormat,
                                       stride: nat, dataSpace: DataSpace, size: nat)

  type Buffers = seq<StreamBuffer>

  /** The synthesizer call the dispatch makes for one buffer, with the arguments it passes. */
  datatype Capture =
    | RawCapture(gain: U32, stride: nat)
    | RgbCapture(gain: U32, width: nat, height: nat)
    | RgbaCapture(gain: U32, width: nat, height: nat)
    | DepthCloudCapture
    | Nv21Capture(gain: U32, width: nat, height: nat)
    | DepthCapture(gain: U32, width: nat, height: nat)
    | NoOutput

  /** A listener, by identity. */
  type ListenerId = nat

  /** The listener callback stage 2 makes when a capture starts. */
  datatype SensorEvent = ExposureStart(frameNumber: U32, time: int)

  /** The switch on the buffer format. */
  function CaptureOf(b: StreamBuffer, gain: U32): (c: Capture)
    ensures c.NoOutput? <==> b.format.Yv12? || b.format.OtherFormat? || NeedsAux(b)
  {
    match b.format
    case Raw16 => RawCapture(gain, b.stride)
    case Rgb888 => RgbCapture(gain, b.width, b.height)
    case Rgba8888 => RgbaCapture(gain, b.width, b.height)
    case Blob => if b.dataSpace == DepthSpace then DepthCloudCapture else NoOutput
    case YCbCr420888 => Nv21Capture(gain, b.width, b.height)
    case Yv12 => NoOutput
    case Y16 => DepthCapture(gain, b.width, b.height)
    case OtherFormat(_) => NoOutput
  }

  /** A BLOB request that is not depth gets an auxiliary RGBA buffer. */
  predicate NeedsAux(b: StreamBuffer)
    ensures NeedsAux(b) ==> b.format == Blob
    ensures b.format == Blob ==> (NeedsAux(b) <==> b.dataSpace != DepthSpace)
  {
    b.format == Blob && b.dataSpace != DepthSpace
  }

  /** Bytes per pixel of an RGBA_8888 image. */
  const RgbaBytesPerPixel: nat := 4

  /**
   * The auxiliary buffer for a BLOB request: stream 0, the request's
   * geometry, RGBA_8888, stride = width, with room for width * height pixels
   * of four bytes.
   */
  function AuxBuffer(b: StreamBuffer): (aux: StreamBuffer)
    ensures aux.format == Rgba8888 && !NeedsAux(aux)
  {
    StreamBuffer(0, b.width, b.height, Rgba8888, b.width, OtherSpace, 4 * b.width * b.height)
  }

  /** The auxiliary buffer as allocated in the source: `new uint8_t[b.width * b.height * 3]`. */
  function AuxBufferAsWritten(b: StreamBuffer): (aux: StreamBuffer)
    ensures aux.format == Rgba8888 && aux.stride == b.width
  {
    StreamBuffer(0, b.width, b.height, Rgba8888, b.width, OtherSpace, b.width * b.height * 3)
  }

  /** The auxiliary buffers the dispatch appends for bufs, in order: one per non-depth BLOB. */
  function AuxOf(bufs: Buffers): (aux: Buffers)
    ensures |aux| <= |bufs|
    ensures forall k :: 0 <= k < |aux| ==> aux[k].format == Rgba8888 && !NeedsAux(aux[k])
    decreases |bufs|
  {
    if |bufs| == 0 then []
    else
      var last := bufs[|bufs| - 1];
      AuxOf(bufs[..|bufs| - 1]) + (if NeedsAux(last) then [AuxBuffer(last)] else [])
  }

  /** The buffer vector once the dispatch is done: the request followed by its auxiliary buffers. */
  function Expanded(bufs: Buffers): (all: Buffers)
    ensures |bufs| <= |all| <= 2 * |bufs| && all[..|bufs|] == bufs
  {
    bufs + AuxOf(bufs)
  }

  /** The synthesizer calls for a buffer vector, one per buffer in order. */
  function CapturesOf(bufs: Buffers, gain: U32): (cs: seq<Capture>)
    ensures |cs| == |bufs|
  {
    seq(|bufs|, k requires 0 <= k < |bufs| => CaptureOf(bufs[k], gain))
  }

  /** The number of non-depth BLOB requests in bufs. */
  function AuxCount(bufs: Buffers): nat
    decreases |bufs|
  {
    if |bufs| == 0 then 0
    else AuxCount(bufs[..|bufs| - 1]) + (if NeedsAux(bufs[|bufs| - 1]) then 1 else 0)
  }

  /**
   * Exactly one auxiliary buffer per non-depth BLOB request: the one for
   * request k sits after the request, behind those of the earlier requests,
   * and it describes the request's geometry in RGBA_8888.
   */
  lemma {:induction false} AuxOfAt(bufs: Buffers, k: nat)
    requires k < |bufs| && NeedsAux(bufs[k])
    ensures |AuxOf(bufs)| == AuxCount(bufs)
    ensures AuxCount(bufs[..k]) < |AuxOf(bufs)|
    ensures AuxOf(bufs)[AuxCount(bufs[..k])] == AuxBuffer(bufs[k])
    decreases |bufs|
  {
    var n := |bufs| - 1;
    AuxOfLength(bufs);
    if k < n {
      assert bufs[..n][..k] == bufs[..k];
      AuxOfAt(bufs[..n], k);
    } else {
      assert bufs[..n] == bufs[..k];
      AuxOfLength(bufs[..n]);
    }
  }

  /** There are as many auxiliary buffers as non-depth BLOB requests. */
  lemma {:induction false} AuxOfLength(bufs: Buffers)
    ensures |AuxOf(bufs)| == AuxCount(bufs)
    decreases |bufs|
  {
    if |bufs| > 0 {
      AuxOfLength(bufs[..|bufs| - 1]);
    }
  }

  /**
   * The auxiliary buffer is captured in the same loop iteration that
   * appended it: the dispatch's calls include an RGBA capture of the BLOB
   * request's geometry, at the auxiliary buffer's position.
   */
  lemma AuxCapturedSameIteration(bufs: Buffers, k: nat, gain: U32)
    requires k < |bufs| && NeedsAux(bufs[k])
    ensures |bufs| + AuxCount(bufs[..k]) < |Expanded(bufs)|
    ensures CapturesOf(Expanded(bufs), gain)[|bufs| + AuxCount(bufs[..k])]
            == RgbaCapture(gain, bufs[k].width, bufs[k].height)
  {
    AuxOfAt(bufs, k);
  }

  /**
   * The stage 2 dispatch loop: for each buffer of the vector, re-reading its
   * size on every iteration, make the synthesizer call of its format; a
   * non-depth BLOB request appends its auxiliary RGBA buffer to the same
   * vector, so that buffer is captured later in the same loop.
   */
  method CaptureBuffers(bufs: Buffers, gain: U32) returns (all: Buffers, captures: seq<Capture>)
    ensures all == bufs + AuxOf(bufs)
    ensures |captures| == |all|
    ensures forall k :: 0 <= k < |all| ==> captures[k] == CaptureOf(all[k], gain)
  {
    all := bufs;
    captures := [];
    var i := 0;
    while i < |all|
      invariant i <= |all|
      invariant all == bufs + AuxOf(bufs[..Min(i, |bufs|)])
      invariant |captures| == i
      invariant forall k :: 0 <= k < i ==> captures[k] == CaptureOf(all[k], gain)
      decreases 2 * |bufs| - i
    {
      var b := all[i];
      if NeedsAux(b) {
        // Only a request can need an auxiliary buffer; the appended ones are RGBA.
        assert i < |bufs| && bufs[..i + 1][..i] == bufs[..i];
        all := all + [AuxBuffer(b)];
      } else if i < |bufs| {
        assert bufs[..i + 1][..i] == bufs[..i];
      }
      captures := captures + [CaptureOf(b, gain)];
      i := i + 1;
    }
    assert bufs[..|bufs|] == bufs;
  }

  /** The fields of the sensor, as one value. */
  datatype SensorState = SensorState(
    gotVSync: bool,
    exposureTime: U64,
    frameDuration: U64,
    gainFactor: U32,
    nextBuffers: Option<Buffers>,
    frameNumber: U32,
    listener: Option<ListenerId>,
    capturedBuffers: Option<Buffers>,
    captureTime: int,
    nextCapturedBuffers: Option<Buffers>,
    nextCaptureTime: int,
    startupTime: int)

  /**
   * The state the constructor leaves: exposure one vertical blank short of
   * the shortest frame, the shortest frame duration, the default
   * sensitivity, frame 0 and no buffers, listener or pending capture.
   */
  function InitialState(): (st: SensorState)
    ensures st.exposureTime + MinVerticalBlank == st.frameDuration == FrameDurationMin
    ensures st.gainFactor == 100 && st.frameNumber == 0 && !st.gotVSync
    ensures st.nextBuffers == None && st.capturedBuffers == None && st.listener == None
    ensures st.nextCapturedBuffers == None
  {
    SensorState(false, 33321760, 33331760, 100, None, 0, None, None, 0, None, 0, 0)
  }

  /** The handoff of stage 3 blocks while the slot still holds a frame the consumer has not taken. */
  predicate LoopCanRun(st: SensorState)
  {
    st.nextCapturedBuffers.Some? ==> st.capturedBuffers.None?
  }

  /** The outcome of one loop body: the new state, the synthesizer calls made and the listener event. */
  datatype LoopResult = LoopResult(state: SensorState, captures: seq<Capture>, event: Option<SensorEvent>)

  /**
   * One pass of the capture loop, started at time now. Stage 1 snapshots the
   * controls, consumes the pending buffer set and raises VSync; stage 3 moves
   * the frame started by the previous pass into the handoff slot with its
   * capture time; stage 2 starts a capture of the snapshotted buffer set,
   * timestamped one row readout and one vertical blank after now.
   */
  function LoopStep(st: SensorState, rowReadoutTime: nat, now: int): (r: LoopResult)
    requires LoopCanRun(st)
    ensures r.state.nextBuffers == None && r.state.gotVSync
    ensures r.state.nextCaptureTime == now + rowReadoutTime + MinVerticalBlank
    ensures st.nextCapturedBuffers.Some? ==> r.state.capturedBuffers == st.nextCapturedBuffers
    ensures st.nextCapturedBuffers.None? ==> r.state.capturedBuffers == st.capturedBuffers
    ensures r.state.nextCapturedBuffers.Some? <==> st.nextBuffers.Some?
    ensures st.nextBuffers.None? ==> r.captures == [] && r.event == None
  {
    var started := now + rowReadoutTime + MinVerticalBlank;
    var next := match st.nextBuffers
                case None => None
                case Some(bufs) => Some(Expanded(bufs));
    var captures := match st.nextBuffers
                    case None => []
                    case Some(bufs) => CapturesOf(Expanded(bufs), st.gainFactor);
    var event := if st.nextBuffers.Some? && st.listener.Some? then Some(ExposureStart(st.frameNumber, started)) else None;
    LoopResult(Publish(Snapshot(st)).(nextCaptureTime := started, nextCapturedBuffers := next), captures, event)
  }

  /** Stage 1's effect on the state: the pending buffer set is consumed and VSync is raised. */
  function Snapshot(st: SensorState): (r: SensorState)
    ensures r.nextBuffers == None && r.gotVSync
    ensures r.(nextBuffers := st.nextBuffers, gotVSync := st.gotVSync) == st
  {
    st.(nextBuffers := None, gotVSync := true)
  }

  /** Stage 3's effect on the state: a frame started by the previous pass moves into the slot with its capture time. */
  function Publish(st: SensorState): (r: SensorState)
    ensures st.nextCapturedBuffers.Some? ==>
              r.capturedBuffers == st.nextCapturedBuffers && r.captureTime == st.nextCaptureTime
    ensures st.nextCapturedBuffers.None? ==> r == st
    ensures r.(capturedBuffers := st.capturedBuffers, captureTime := st.captureTime) == st
  {
    if st.nextCapturedBuffers.Some? then st.(capturedBuffers := st.nextCapturedBuffers, captureTime := st.nextCaptureTime)
    else st
  }

  /** waitForNewFrame: when the slot holds a frame, empty it and return its capture time. */
  function WaitStep(st: SensorState): (r: (SensorState, Option<int>))
    ensures r.1.Some? <==> st.capturedBuffers.Some?
    ensures r.1.Some? ==> r.1.value == st.captureTime && r.0 == st.(capturedBuffers := None)
    ensures r.1.None? ==> r.0 == st
  {
    if st.capturedBuffers.Some? then (st.(capturedBuffers := None), Some(st.captureTime))
    else (st, None)
  }

  /**
   * A buffer set handed to the sensor before pass N is captured in pass N and
   * published, with the timestamp pass N gave it, in pass N + 1 (provided
   * the consumer has emptied the slot by then), and not before.
   */
  lemma PublishedNextPass(st: SensorState, rowReadoutTime: nat, bufs: Buffers, t1: int, t2: int)
    requires LoopCanRun(st) && st.nextBuffers == Some(bufs)
    ensures LoopStep(st, rowReadoutTime, t1).state.capturedBuffers != Some(Expanded(bufs))
            || st.nextCapturedBuffers == Some(Expanded(bufs))
            || (st.nextCapturedBuffers.None? && st.capturedBuffers == Some(Expanded(bufs)))
    ensures var mid := LoopStep(st, rowReadoutTime, t1).state.(capturedBuffers := None);
            var fin := LoopStep(mid, rowReadoutTime, t2).state;
            fin.capturedBuffers == Some(Expanded(bufs)) && fin.captureTime == t1 + rowReadoutTime + MinVerticalBlank
  {
  }

  /** A buffer set is captured by one pass only: the next pass, without a new set, starts no capture. */
  lemma ConsumedOnce(st: SensorState, rowReadoutTime: nat, t1: int, t2: int)
    requires LoopCanRun(st)
    ensures var mid := LoopStep(st, rowReadoutTime, t1).state.(capturedBuffers := None);
            var r := LoopStep(mid, rowReadoutTime, t2);
            r.state.nextCapturedBuffers == None && r.captures == [] && r.event == None
  {
  }

  /** What the sensor can be asked to do, in one sequential interleaving. */
  datatype Op =
    | SetExposure(ns: U64)
    | SetDuration(ns: U64)
    | SetGain(gain: U32)
    | SetBuffers(bufs: Option<Buffers>)
    | SetFrame(frameNumber: U32)
    | SetListener(listener: Option<ListenerId>)
    | RunLoop(now: int)
    | WaitFrame

  /** A frame in the handoff slot counts 1. */
  function SlotCount(st: SensorState): nat
  {
    if st.capturedBuffers.Some? then 1 else 0
  }

  /** The outcome of a run: the final state, how many frames were published and how many were consumed. */
  datatype RunResult = RunResult(state: SensorState, published: nat, consumed: nat)

  /**
   * Apply ops in order. A loop pass that would block on the slot makes the
   * run None: in a sequential interleaving it can only run after the
   * consumer's wait.
   */
  function Run(st: SensorState, rowReadoutTime: nat, ops: seq<Op>): Option<RunResult>
    decreases |ops|
  {
    if |ops| == 0 then Some(RunResult(st, 0, 0))
    else
      match ops[0]
      case SetExposure(ns) => Run(st.(exposureTime := ns), rowReadoutTime, ops[1..])
      case SetDuration(ns) => Run(st.(frameDuration := ns), rowReadoutTime, ops[1..])
      case SetGain(gain) => Run(st.(gainFactor := gain), rowReadoutTime, ops[1..])
      case SetBuffers(bufs) => Run(st.(nextBuffers := bufs), rowReadoutTime, ops[1..])
      case SetFrame(n) => Run(st.(frameNumber := n), rowReadoutTime, ops[1..])
      case SetListener(l) => Run(st.(listener := l), rowReadoutTime, ops[1..])
      case RunLoop(now) =>
        if !LoopCanRun(st) then None
        else
          var publishes := if st.nextCapturedBuffers.Some? then 1 else 0;
          (match Run(LoopStep(st, rowReadoutTime, now).state, rowReadoutTime, ops[1..])
           case None => None
           case Some(r) => Some(r.(published := r.published + publishes)))
      case WaitFrame =>
        var (next, time) := WaitStep(st);
        var consumes := if time.Some? then 1 else 0;
        (match Run(next, rowReadoutTime, ops[1..])
         case None => None
         case Some(r) => Some(r.(consumed := r.consumed + consumes)))
  }

  /**
   * The single-slot handoff loses no frame and delivers none twice: over
   * any run, the frames consumed plus the one left in the slot are the
   * frames published plus the one the slot started with.
   */
  lemma {:induction false} HandoffConserves(st: SensorState, rowReadoutTime: nat, ops: seq<Op>)
    requires Run(st, rowReadoutTime, ops).Some?
    ensures var r := Run(st, rowReadoutTime, ops).value;
            r.consumed + SlotCount(r.state) == r.published + SlotCount(st)
    decreases |ops|
  {
    if |ops| > 0 {
      match ops[0]
      case SetExposure(ns) =>
        HandoffConserves(st.(exposureTime := ns), rowReadoutTime, ops[1..]);
      case SetDuration(ns) =>
        HandoffConserves(st.(frameDuration := ns), rowReadoutTime, ops[1..]);
      case SetGain(gain) =>
        HandoffConserves(st.(gainFactor := gain), rowReadoutTime, ops[1..]);
      case SetBuffers(bufs) =>
        HandoffConserves(st.(nextBuffers := bufs), rowReadoutTime, ops[1..]);
      case SetFrame(n) =>
        HandoffConserves(st.(frameNumber := n), rowReadoutTime, ops[1..]);
      case SetListener(l) =>
        HandoffConserves(st.(listener := l), rowReadoutTime, ops[1..]);
      case RunLoop(now) =>
        HandoffConserves(LoopStep(st, rowReadoutTime, now).state, rowReadoutTime, ops[1..]);
      case WaitFrame =>
        HandoffConserves(WaitStep(st).0, rowReadoutTime, ops[1..]);
    }
  }

  /** The sensor: its resolution, its row readout time and the fields the threads share. */
  class Sensor {
    const width: nat
    const height: nat
    const rowReadoutTime: nat

    var gotVSync: bool
    var exposureTime: U64
    var frameDuration: U64
    var gainFactor: U32
    var nextBuffers: Option<Buffers>
    var frameNumber: U32
    var listener: Option<ListenerId>
    var capturedBuffers: Option<Buffers>
    var captureTime: int
    var nextCapturedBuffers: Option<Buffers>
    var nextCaptureTime: int
    var startupTime: int

    function State(): SensorState
      reads this
    {
      SensorState(gotVSync, exposureTime, frameDuration, gainFactor, nextBuffers, frameNumber,
                  listener, capturedBuffers, captureTime, nextCapturedBuffers, nextCaptureTime, startupTime)
    }

    /**
     * The constructor's defaults; a row is read out in the shortest frame
     * duration divided by the number of rows.
     */
    constructor (width: nat, height: nat)
      requires height > 0
      ensures this.width == width && this.height == height
      ensures rowReadoutTime * height <= FrameDurationMin < rowReadoutTime * height + height
      ensures State() == InitialState()
    {
      this.width, this.height := width, height;
      rowReadoutTime := 33331760 / height;   // kFrameDurationRange[0] / height
      gotVSync := false;
      exposureTime := 33331760 - 10000;      // kFrameDurationRange[0] - kMinVerticalBlank
      frameDuration := 33331760;
      gainFactor := 100;                      // kDefaultSensitivity
      nextBuffers := None;
      frameNumber := 0;
      capturedBuffers := None;
      listener := None;
      captureTime, nextCapturedBuffers, nextCaptureTime, startupTime := 0, None, 0, 0;
    }

    /** startUp: empty the handoff slot before the capture thread runs. */
    method StartUp()
      modifies this`capturedBuffers
      ensures State() == old(State()).(capturedBuffers := None)
    {
      capturedBuffers := None;
    }

    /** readyToRun, on the capture thread: note the start time and clear the pending capture. */
    method ReadyToRun(now: int)
      modifies this`startupTime, this`nextCaptureTime, this`nextCapturedBuffers
      ensures State() == old(State()).(startupTime := now, nextCaptureTime := 0, nextCapturedBuffers := None)
    {
      startupTime := now;
      nextCaptureTime := 0;
      nextCapturedBuffers := None;
    }

    method SetExposureTime(ns: U64)
      modifies this`exposureTime
      ensures State() == old(State()).(exposureTime := ns)
    {
      exposureTime := ns;
    }

    method SetFrameDuration(ns: U64)
      modifies this`frameDuration
      ensures State() == old(State()).(frameDuration := ns)
    {
      frameDuration := ns;
    }

    method SetSensitivity(gain: U32)
      modifies this`gainFactor
      ensures State() == old(State()).(gainFactor := gain)
    {
      gainFactor := gain;
    }

    method SetDestinationBuffers(buffers: Option<Buffers>)
      modifies this`nextBuffers
      ensures State() == old(State()).(nextBuffers := buffers)
    {
      nextBuffers := buffers;
    }

    method SetFrameNumber(frameNumber: U32)
      modifies this`frameNumber
      ensures State() == old(State()).(frameNumber := frameNumber)
    {
      this.frameNumber := frameNumber;
    }

    method SetSensorListener(listener: Option<ListenerId>)
      modifies this`listener
      ensures State() == old(State()).(listener := listener)
    {
      this.listener := listener;
    }

    /**
     * waitForNewFrame: when the slot holds a frame, signal readout complete,
     * return the frame's capture time and empty the slot; when it is empty
     * (the wait timed out), fail and change nothing.
     */
    method WaitForNewFrame() returns (time: Option<int>)
      modifies this`capturedBuffers
      ensures (State(), time) == WaitStep(old(State()))
    {
      if capturedBuffers == None {
        return None;
      }
      time := Some(captureTime);
      capturedBuffers := None;
    }

    /**
     * threadLoop, stages 1 to 3 and the dispatch of stage 2, started at time
     * now. The synthesizer calls are returned rather than made; the listener
     * event is returned rather than delivered.
     */
    method ThreadLoop(now: int) returns (captures: seq<Capture>, event: Option<SensorEvent>)
      requires LoopCanRun(State())
      modifies this
      ensures LoopResult(State(), captures, event) == LoopStep(old(State()), rowReadoutTime, now)
    {
      var gain, buffers, frame, lst := ReadControls();
      var simulatedTime := ReadOut(now);
      captures, event := StartCapture(simulatedTime, gain, buffers, frame, lst);
    }

    /** Stage 1: read in the latest control parameters, consume the buffer set and signal VSync. */
    method ReadControls() returns (gain: U32, buffers: Option<Buffers>, frame: U32, lst: Option<ListenerId>)
      modifies this`nextBuffers, this`gotVSync
      ensures gain == gainFactor && buffers == old(nextBuffers) && frame == frameNumber && lst == listener
      ensures State() == Snapshot(old(State()))
    {
      gain := gainFactor;
      buffers := nextBuffers;
      frame := frameNumber;
      lst := listener;
      nextBuffers := None;      // do not reuse a buffer set
      gotVSync := true;
    }

    /**
     * Stage 3: hand the frame the previous pass started to the consumer; the
     * result is the simulated time of this pass's capture.
     */
    method ReadOut(now: int) returns (simulatedTime: int)
      requires LoopCanRun(State())
      modifies this`capturedBuffers, this`captureTime
      ensures simulatedTime == now + rowReadoutTime + MinVerticalBlank
      ensures State() == Publish(old(State()))
    {
      var captured: Option<Buffers> := None;
      var time := 0;
      simulatedTime := now;
      if nextCapturedBuffers != None {
        captured := nextCapturedBuffers;
        time := nextCaptureTime;
      }
      simulatedTime := simulatedTime + rowReadoutTime + MinVerticalBlank;
      if captured != None {
        capturedBuffers := captured;
        captureTime := time;
      }
    }

    /** Stage 2: start the capture of the snapshotted buffer set and dispatch each of its buffers. */
    method StartCapture(simulatedTime: int, gain: U32, buffers: Option<Buffers>, frame: U32, lst: Option<ListenerId>)
      returns (captures: seq<Capture>, event: Option<SensorEvent>)
      modifies this`nextCaptureTime, this`nextCapturedBuffers
      ensures nextCaptureTime == simulatedTime
      ensures buffers.None? ==> nextCapturedBuffers == None && captures == [] && event == None
      ensures buffers.Some? ==> nextCapturedBuffers == Some(Expanded(buffers.value))
                                && captures == CapturesOf(Expanded(buffers.value), gain)
      ensures event == if buffers.Some? && lst.Some? then Some(ExposureStart(frame, simulatedTime)) else None
    {
      nextCaptureTime := simulatedTime;
      nextCapturedBuffers := buffers;
      captures, event := [], None;
      if buffers != None {
        if lst != None {
          event := Some(ExposureStart(frame, nextCaptureTime));
        }
        var all, calls := CaptureBuffers(buffers.value, gain);
        assert calls == CapturesOf(all, gain);
        nextCapturedBuffers := Some(all);
        captures := calls;
      }
    }
  }

  /**
   * The auxiliary buffer as allocated in the source is too small for the
   * RGBA image it is declared to hold: at 640x480 it has 921600 bytes where
   * captureRGBA writes 1228800.
   */
  lemma AuxAsWrittenTooSmall()
    ensures var b := StreamBuffer(1, 640, 480, Blob, 640, OtherSpace, 0);
            var aux := AuxBufferAsWritten(b);
            aux.size == 921600 < RgbaBytesPerPixel * aux.stride * aux.height == Rgba.RgbaSize
  {
  }

  /**
   * The corrected auxiliary buffer holds its declared RGBA geometry: four
   * bytes for each of stride x height pixels; at 640x480 that is exactly what
   * captureRGBA writes.
   */
  lemma AuxHoldsRgbaImage(b: StreamBuffer)
    ensures AuxBuffer(b).size == RgbaBytesPerPixel * AuxBuffer(b).stride * AuxBuffer(b).height
    ensures b.width == 640 && b.height == 480 ==> AuxBuffer(b).size == Rgba.RgbaSize
  {
  }
}
