/**
 * The video capturer handed to the real-time media stack. It advertises a single
 * I420 format of the decoder's size and, while capturing, is registered as the
 * decoder's video frame observer, sharing one frame buffer with it.
 *
 * The decoder behind the capturer is represented by what the capturer asks of it:
 * whether the handle is present, whether it reports running, and whether it
 * accepts the observer; these answers are parameters of the methods below.
 */
module GangVideoCapturer {
  import opened Common

  /** The four-character code 'I420', little-endian. */
  const FourccI420: nat := 0x30323449

  datatype CaptureState = CsFailed | CsRunning

  /** Width, height, frame interval in nanoseconds and pixel format of a capture format. */
  datatype VideoFormat = VideoFormat(width: int, height: int, interval: int, fourcc: nat)

  /** The description of the frame buffer shared with the decoder. */
  datatype CapturedFrame = CapturedFrame(
    fourcc: nat, pixelWidth: int, pixelHeight: int, width: int, height: int, dataSize: nat,
    timeStamp: int, elapsedTime: int)

  class Capturer {
    /** Whether the decoder handle is non-null. */
    var hasGang: bool
    var startTimeNs: int
    var capture: bool
    var frame: CapturedFrame
    var frameData: array?<Byte>
    var supportedFormats: seq<VideoFormat>
    var captureFormat: Option<VideoFormat>
    var videoAdapterEnabled: bool
    /** Whether the capturer is registered as the decoder's video frame observer. */
    var observerAttached: bool

    /**
     * The state Create leaves behind and Start/Stop keep: exactly one I420 format,
     * a frame buffer of the advertised size, and registration whenever capturing.
     */
    ghost predicate Valid()
      reads this
    {
      && |supportedFormats| == 1
      && supportedFormats[0].fourcc == FourccI420
      && supportedFormats[0].width == frame.width && supportedFormats[0].height == frame.height
      && frame.fourcc == FourccI420
      && frameData != null && frameData.Length == frame.dataSize
      && (capture ==> observerAttached && captureFormat.Some?)
    }

    constructor(hasGang: bool)
      ensures this.hasGang == hasGang && startTimeNs == 0 && !capture
      ensures frameData == null && supportedFormats == [] && captureFormat == None
      ensures videoAdapterEnabled && !observerAttached
    {
      this.hasGang := hasGang;
      startTimeNs := 0;
      capture := false;
      frame := CapturedFrame(0, 0, 0, 0, 0, 0, 0, 0);
      frameData := null;
      supportedFormats := [];
      captureFormat := None;
      videoAdapterEnabled := true;
      observerAttached := false;
    }

    /**
     * Describes the decoder's video (size `width` x `height`) as one I420 format with
     * frame interval `interval`, and allocates the shared frame buffer of `dataSize`
     * bytes; the video adapter is switched off.
     */
    method Initialize(width: int, height: int, interval: int, dataSize: nat)
      requires !capture
      modifies this
      ensures Valid()
      ensures hasGang == old(hasGang) && startTimeNs == old(startTimeNs) && !capture
      ensures captureFormat == old(captureFormat) && observerAttached == old(observerAttached)
      ensures frame.fourcc == FourccI420 && frame.pixelWidth == 1 && frame.pixelHeight == 1
      ensures frame.width == width && frame.height == height && frame.dataSize == dataSize
      ensures fresh(frameData)
      ensures supportedFormats == [VideoFormat(width, height, interval, FourccI420)]
      ensures !videoAdapterEnabled
    {
      frame := frame.(fourcc := FourccI420, pixelWidth := 1, pixelHeight := 1,
                      width := width, height := height, dataSize := dataSize);
      frameData := new Byte[dataSize];
      supportedFormats := [VideoFormat(width, height, interval, FourccI420)];
      videoAdapterEnabled := false;
    }

    /** A capturer over the decoder, or null when there is no decoder. */
    static method Create(hasGang: bool, width: int, height: int, interval: int, dataSize: nat)
      returns (c: Capturer?)
      ensures !hasGang ==> c == null
      ensures hasGang ==> c != null && fresh(c) && c.Valid() && c.hasGang && !c.capture && !c.observerAttached
      ensures hasGang ==> c.supportedFormats == [VideoFormat(width, height, interval, FourccI420)]
    {
      if !hasGang {
        return null;
      }
      c := new Capturer(hasGang);
      c.Initialize(width, height, interval, dataSize);
    }

    /** True when the decoder handle is present and the decoder reports running. */
    function IsRunning(decoderRunning: bool): (r: bool)
      reads this
      ensures r <==> hasGang && decoderRunning
    {
      hasGang && decoderRunning
    }

    /**
     * Starts capturing in `format` at time `nowNs`. Refused while capturing. Otherwise
     * the format and start time are recorded, and capturing begins only if the
     * decoder accepts the observer (`accepts`).
     */
    method Start(format: VideoFormat, nowNs: int, accepts: bool) returns (state: CaptureState)
      requires Valid()
      modifies this`captureFormat, this`startTimeNs, this`capture, this`observerAttached
      ensures Valid()
      ensures old(capture) ==>
                (state == CsFailed && capture && captureFormat == old(captureFormat)
                 && startTimeNs == old(startTimeNs) && observerAttached == old(observerAttached))
      ensures !old(capture) ==> captureFormat == Some(format) && startTimeNs == nowNs
      ensures !old(capture) && accepts ==> state == CsRunning && capture && observerAttached
      ensures !old(capture) && !accepts ==> state == CsFailed && !capture && observerAttached == old(observerAttached)
      ensures state == CsRunning <==> !old(capture) && capture
    {
      if capture {
        return CsFailed;
      }
      captureFormat := Some(format);
      startTimeNs := nowNs;
      if accepts {
        observerAttached := true;
        capture := true;
        return CsRunning;
      }
      return CsFailed;
    }

    /**
     * Stops capturing (the caller holds the lock). A no-op when not capturing;
     * otherwise the flag is cleared, and the capture format is dropped and the
     * observer detached only if the decoder is running.
     */
    method StopCapture(decoderRunning: bool)
      requires Valid()
      modifies this`capture, this`captureFormat, this`observerAttached
      ensures Valid() && !capture
      ensures !old(capture) ==> captureFormat == old(captureFormat) && observerAttached == old(observerAttached)
      ensures old(capture) && IsRunning(decoderRunning) ==> captureFormat == None && !observerAttached
      ensures old(capture) && !IsRunning(decoderRunning) ==>
                (captureFormat == old(captureFormat) && observerAttached == old(observerAttached))
    {
      if capture {
        capture := false;
        if IsRunning(decoderRunning) {
          captureFormat := None;
          observerAttached := false;
        }
      }
    }

    /** Stop under the capturer's lock. */
    method Stop(decoderRunning: bool)
      requires Valid()
      modifies this`capture, this`captureFormat, this`observerAttached
      ensures Valid() && !capture
      ensures old(capture) && IsRunning(decoderRunning) ==> captureFormat == None && !observerAttached
      ensures !old(capture) || !IsRunning(decoderRunning) ==>
                (captureFormat == old(captureFormat) && observerAttached == old(observerAttached))
    {
      StopCapture(decoderRunning);
    }

    /** Stamps the shared frame with `nowNs` and the time elapsed since Start. */
    method OnGangFrame(nowNs: int)
      modifies this`frame
      ensures frame == old(frame).(timeStamp := nowNs, elapsedTime := nowNs - startTimeNs)
    {
      frame := frame.(timeStamp := nowNs);
      frame := frame.(elapsedTime := frame.timeStamp - startTimeNs);
    }

    /** Appends the first supported format's code (I420) to a non-null list. */
    method GetPreferredFourccs(fourccs: Option<seq<nat>>) returns (ok: bool, result: Option<seq<nat>>)
      requires Valid()
      ensures fourccs.None? ==> !ok && result == None
      ensures fourccs.Some? ==> ok && result == Some(fourccs.value + [FourccI420])
    {
      if fourccs.None? {
        return false, None;
      }
      return true, Some(fourccs.value + [supportedFormats[0].fourcc]);
    }
  }
}
