/**
 * The decoder instance of gang_decoder_impl.c: its field state, the
 * frame-rate rule, the resample scratch buffer, the audio and video decode
 * paths and the per-packet classification into EOF / error / video / audio.
 *
 * Library calls are opaque. What they report (return codes, decoded bytes,
 * whether memory could be had) is passed in as a parameter.
 */
module GangDecoderImpl {
  import opened Common
  import opened FfmpegFormat

  /** What gang_decode_next_frame returns. */
  const GangEof: int := -1
  const GangErrorData: int := 0
  const GangVideoData: int := 1
  const GangAudioData: int := 2

  datatype PixelFormat = PixFmtNone | PixFmt(id: nat)

  datatype Rational = Rational(num: int, den: int)

  /** What the decoder copies from the video stream's codec and stream records. */
  datatype VideoParams = VideoParams(width: int, height: int, pixFmt: PixelFormat, frameRate: Rational)

  // ---------------------------------------------------------------------
  // Arithmetic: C division, the frame-rate rule, av_rescale_rnd
  // ---------------------------------------------------------------------

  lemma DivFacts(n: nat, d: nat)
    requires d > 0
    ensures 0 / d == 0 && n / d >= 0
    ensures (n / d) * d <= n < (n / d) * d + d
  {
  }

  /** C's `/` on int: the quotient is truncated towards zero. */
  function CDiv(a: int, b: int): (q: int)
    requires b != 0
    ensures Abs(q) == Abs(a) / Abs(b)
    ensures q == 0 || (q > 0 <==> (a > 0) == (b > 0))
  {
    var m := Abs(a) / Abs(b);
    DivFacts(Abs(a), Abs(b));
    if a == 0 then 0 else if (a > 0) == (b > 0) then m else -m
  }

  /** The frame rate used when the stream reports a zero denominator. */
  const UnknownRateFps: int := 10000

  function FpsOf(rate: Rational): (fps: int)
    ensures rate.den == 0 ==> fps == UnknownRateFps
    ensures rate.den != 0 ==> Abs(fps) == Abs(rate.num) / Abs(rate.den)
    ensures rate.den != 0 && fps != 0 ==> (fps > 0 <==> (rate.num > 0) == (rate.den > 0))
  {
    if rate.den != 0 then CDiv(rate.num, rate.den) else UnknownRateFps
  }

  /** For a positive rate the frame count per second is the rate rounded down. */
  lemma {:induction false} FpsIsWholeFrames(rate: Rational)
    requires rate.num >= 0 && rate.den > 0
    ensures FpsOf(rate) >= 0
    ensures FpsOf(rate) * rate.den <= rate.num < (FpsOf(rate) + 1) * rate.den
  {
    var fps := FpsOf(rate);
    DivFacts(rate.num, rate.den);
    assert fps == rate.num / rate.den;
    assert (fps + 1) * rate.den == fps * rate.den + rate.den;
  }

  /** INT64_MIN, av_rescale_rnd's answer to arguments it refuses. */
  const Int64Min: int := -0x8000_0000_0000_0000

  function CeilDiv(x: int, c: int): (q: int)
    requires c > 0
    ensures (q - 1) * c < x <= q * c
  {
    var q := (x + c - 1) / c;
    DivFacts(0, c);
    assert q * c <= x + c - 1 < q * c + c;
    q
  }

  /** av_rescale_rnd(a, b, c, AV_ROUND_UP): a * b / c rounded up. */
  function RescaleUp(a: int, b: int, c: int): (r: int)
    ensures c <= 0 || b < 0 ==> r == Int64Min
    ensures c > 0 && b >= 0 ==> (r - 1) * c < a * b <= r * c
    ensures c > 0 && b >= 0 && a >= 0 ==> r >= 0
  {
    if c <= 0 || b < 0 then Int64Min else CeilDiv(a * b, c)
  }

  // ---------------------------------------------------------------------
  // av_samples_get_buffer_size for packed 16-bit audio
  // ---------------------------------------------------------------------

  function RoundUp32(n: nat): (r: nat)
    ensures n <= r < n + 32 && r % 32 == 0
  {
    n + (32 - n % 32) % 32
  }

  /**
   * Bytes needed for `samples` packed 16-bit samples of `channels` channels.
   * With `defaultAlign` (align 0) the sample count is first rounded up to a
   * multiple of 32.
   */
  function SamplesBufferSize(channels: int, samples: int, defaultAlign: bool): (size: int)
    ensures channels <= 0 || samples <= 0 ==> size == AVError(EINVAL)
    ensures channels > 0 && samples > 0 ==> size >= channels * samples * BytesPerSample
    ensures channels > 0 && samples > 0 && !defaultAlign ==> size == channels * samples * BytesPerSample
  {
    if channels <= 0 || samples <= 0 then AVError(EINVAL)
    else
      var padded := if defaultAlign then RoundUp32(samples) else samples;
      MulMono(samples, padded, channels * BytesPerSample);
      assert channels * samples * BytesPerSample == samples * (channels * BytesPerSample);
      channels * padded * BytesPerSample
  }

  // ---------------------------------------------------------------------
  // The resample scratch buffer (prepare_resample_buffer)
  // ---------------------------------------------------------------------

  /**
   * The scratch buffer's bookkeeping: whether the pointer table
   * audio_dst_data exists, the byte size of its plane 0 (None when that plane
   * is NULL or freed) and audio_dst_max_nb_samples.
   */
  datatype Scratch = Scratch(table: bool, plane: Option<nat>, maxSamples: int)

  /** The recorded capacity is backed by a plane large enough for it. */
  predicate ScratchSound(s: Scratch, channels: int) {
    && (s.plane.Some? ==> s.table)
    && (s.maxSamples > 0 ==> s.plane.Some? && s.plane.value >= channels * s.maxSamples * BytesPerSample)
  }

  datatype Prepared = Prepared(scratch: Scratch, ret: int)

  /**
   * The scratch buffer after a request for `required` samples, as the source
   * is written: a failed reallocation has already freed plane 0 but keeps
   * audio_dst_max_nb_samples. `memoryOk` is whether the allocator finds memory.
   */
  function PrepareAsWritten(s: Scratch, required: int, channels: int, memoryOk: bool): (p: Prepared)
    ensures required <= s.maxSamples ==> p == Prepared(s, 0)
    ensures p.ret <= 0 && p.scratch.maxSamples >= s.maxSamples
    ensures p.ret < 0 ==> p.scratch.maxSamples == s.maxSamples
    ensures p.ret == 0 ==> p.scratch.maxSamples >= required
    ensures required > s.maxSamples && p.ret < 0 ==> p.scratch.plane.None? && p.scratch.table == s.table
  {
    if required <= s.maxSamples then Prepared(s, 0)
    else if s.table then
      var size := SamplesBufferSize(channels, required, false);
      if size < 0 then Prepared(Scratch(true, None, s.maxSamples), size)
      else if !memoryOk then Prepared(Scratch(true, None, s.maxSamples), AVError(ENOMEM))
      else Prepared(Scratch(true, Some(size), required), 0)
    else
      var size := SamplesBufferSize(channels, required, true);
      if size < 0 then Prepared(Scratch(false, None, s.maxSamples), size)
      else if !memoryOk then Prepared(Scratch(false, None, s.maxSamples), AVError(ENOMEM))
      else Prepared(Scratch(true, Some(size), required), 0)
  }

  /**
   * A failed reallocation leaves a recorded capacity of 10 samples with no
   * plane behind it; the next request for at most 10 samples skips the
   * allocation, so the conversion then writes through a NULL plane 0.
   */
  lemma FailedGrowthKeepsStaleCapacity()
    ensures var s := Scratch(true, Some(40), 10);
            var p := PrepareAsWritten(s, 20, 2, false);
            && ScratchSound(s, 2)
            && p.ret < 0
            && !ScratchSound(p.scratch, 2)
            && PrepareAsWritten(p.scratch, 5, 2, true) == Prepared(p.scratch, 0)
  {
  }

  /**
   * prepare_resample_buffer with the capacity reset to 0 whenever plane 0 is
   * gone: a request for more than the recorded capacity reallocates, any
   * other request leaves everything as it is.
   */
  function PrepareScratch(s: Scratch, required: int, channels: int, memoryOk: bool): (p: Prepared)
    ensures required <= s.maxSamples ==> p == Prepared(s, 0)
    ensures p.ret <= 0
    ensures p.ret == 0 ==> p.scratch.maxSamples >= required && p.scratch.maxSamples >= s.maxSamples
    ensures p.ret < 0 ==> p.scratch.maxSamples == 0 && p.scratch.plane.None?
    ensures required > s.maxSamples && required > 0 && channels > 0 && memoryOk ==> p.ret == 0
    ensures required > s.maxSamples && p.ret == 0 ==> p.scratch.plane.Some?
  {
    if required <= s.maxSamples then Prepared(s, 0)
    else if s.table then
      var size := SamplesBufferSize(channels, required, false);
      if size < 0 then Prepared(Scratch(true, None, 0), size)
      else if !memoryOk then Prepared(Scratch(true, None, 0), AVError(ENOMEM))
      else Prepared(Scratch(true, Some(size), required), 0)
    else
      var size := SamplesBufferSize(channels, required, true);
      if size < 0 then Prepared(Scratch(false, None, 0), size)
      else if !memoryOk then Prepared(Scratch(false, None, 0), AVError(ENOMEM))
      else Prepared(Scratch(true, Some(size), required), 0)
  }

  /** Every request, successful or not, leaves a capacity the plane backs. */
  lemma {:induction false} PrepareScratchKeepsSound(s: Scratch, required: int, channels: int, memoryOk: bool)
    requires ScratchSound(s, channels)
    ensures ScratchSound(PrepareScratch(s, required, channels, memoryOk).scratch, channels)
  {
    var p := PrepareScratch(s, required, channels, memoryOk);
    if required > s.maxSamples && p.ret == 0 {
      var size := SamplesBufferSize(channels, required, !s.table);
      assert p.scratch == Scratch(true, Some(size), required);
    }
  }

  /** The corrected and the written version agree whenever memory can be had. */
  lemma {:induction false} PrepareAgreesOnSuccess(s: Scratch, required: int, channels: int)
    requires channels > 0 && s.maxSamples >= 0
    ensures PrepareScratch(s, required, channels, true) == PrepareAsWritten(s, required, channels, true)
  {
  }

  // ---------------------------------------------------------------------
  // After the conversion (the tail of resample_and_copy)
  // ---------------------------------------------------------------------

  /**
   * What the caller gets: the return code, whether `*data` was written, how
   * many bytes it holds and the sample count written to `*nb_samples`.
   */
  datatype Delivery = Delivery(ret: int, wroteData: bool, byteCount: int, sampleCount: int)

  /** A successful delivery hands over data whose size matches its sample count. */
  predicate Consistent(d: Delivery, channels: int) {
    d.ret == 0 ==> d.wroteData && d.byteCount == d.sampleCount * channels * BytesPerSample
  }

  /**
   * As written: a size error is answered with the conversion's own (non
   * negative) result, and the sample count reported is the one requested from
   * the resampler, not the one it produced.
   */
  function ResampleTailAsWritten(convertRet: int, channels: int, requested: int): (d: Delivery)
    ensures convertRet < 0 ==> d == Delivery(convertRet, false, 0, 0)
    ensures convertRet == 0 ==> d.ret == 0 && !d.wroteData
    ensures convertRet >= 0 && SamplesBufferSize(channels, convertRet, false) < 0 ==> d.ret == convertRet && !d.wroteData
    ensures d.wroteData ==> d.ret == 0 && d.sampleCount == requested
  {
    if convertRet < 0 then Delivery(convertRet, false, 0, 0)
    else
      var size := SamplesBufferSize(channels, convertRet, false);
      if size < 0 then Delivery(convertRet, false, 0, 0)
      else Delivery(0, true, size, requested)
  }

  /** A resampler that buffers a whole input frame yields success without data. */
  lemma EmptyConversionReportsSuccess()
    ensures var d := ResampleTailAsWritten(0, 2, 1024);
            d.ret == 0 && !d.wroteData && !Consistent(d, 2)
  {
  }

  /** A conversion that produces fewer samples than requested over-reports the count. */
  lemma ShortConversionOverReports()
    ensures var d := ResampleTailAsWritten(1000, 2, 1024);
            d.ret == 0 && d.byteCount == 4000 && d.sampleCount == 1024 && !Consistent(d, 2)
  {
  }

  /** resample_and_copy's tail returning the size error and the produced sample count. */
  function ResampleTail(convertRet: int, channels: int): (d: Delivery)
    ensures d.ret <= 0 && Consistent(d, channels)
    ensures d.ret == 0 <==> convertRet > 0 && channels > 0
    ensures d.ret == 0 ==> d.sampleCount == convertRet
    ensures d.ret != 0 ==> !d.wroteData
  {
    if convertRet < 0 then Delivery(convertRet, false, 0, 0)
    else
      var size := SamplesBufferSize(channels, convertRet, false);
      if size < 0 then Delivery(size, false, 0, 0)
      else Delivery(0, true, size, convertRet)
  }

  /** Where the conversion produced data and the written tail did not fail, both agree on the bytes. */
  lemma {:induction false} ResampleTailAgrees(convertRet: int, channels: int, requested: int)
    requires convertRet > 0 && channels > 0
    ensures ResampleTail(convertRet, channels).byteCount == ResampleTailAsWritten(convertRet, channels, requested).byteCount
    ensures ResampleTailAsWritten(convertRet, channels, requested).sampleCount == requested
  {
  }

  // ---------------------------------------------------------------------
  // Opening (open_gang_decoder)
  // ---------------------------------------------------------------------

  /**
   * The opaque outcomes open_gang_decoder depends on: the input probes, the
   * video and audio codec parameters, resampler setup, av_image_alloc's
   * return (the buffer size, or negative) and whether av_frame_alloc finds
   * memory.
   */
  datatype OpenEnv = OpenEnv(
    input: InputProbe, video: VideoParams, audio: AudioCodecParams,
    swr: ResamplerSetup, imageAllocRet: int, frameAllocOk: bool)

  datatype OpenOutcome = Returned(error: int) | NullStreamDereference

  /**
   * open_gang_decoder on a fresh decoder, as written: after open_input_file
   * succeeds it reads the audio stream's codec, then the video stream's,
   * without checking that either stream exists.
   */
  function OpenAsWritten(env: OpenEnv): (o: OpenOutcome)
    ensures var r := OpenInputFile(env.input, None, None);
            && (o.NullStreamDereference? ==> r.error == 0 && (r.videoStream.None? || r.audioStream.None?))
            && (r.error == 0 && r.audioStream.None? ==> o.NullStreamDereference?)
            && (r.error == 0 && r.audioStream.Some? && InitAudioResampler(env.audio, 0, 0, env.swr).error != 0 ==>
                  o == Returned(InitAudioResampler(env.audio, 0, 0, env.swr).error))
            && (r.error == 0 && r.audioStream.Some? && r.videoStream.None? && InitAudioResampler(env.audio, 0, 0, env.swr).error == 0 ==>
                  o.NullStreamDereference?)
            && (r.error != 0 ==> o == Returned(r.error))
  {
    var r := OpenInputFile(env.input, None, None);
    if r.error != 0 then Returned(r.error)
    else if r.audioStream.None? then NullStreamDereference
    else
      var n := InitAudioResampler(env.audio, 0, 0, env.swr);
      if n.error != 0 then Returned(n.error)
      else if r.videoStream.None? then NullStreamDereference
      else if env.imageAllocRet < 0 then Returned(-1)
      else if !env.frameAllocOk then Returned(AVError(ENOMEM))
      else Returned(0)
  }

  /**
   * A video-only input (an audio probe that finds nothing) always reaches the
   * audio stream's codec through a NULL stream.
   */
  lemma {:induction false} VideoOnlyInputDereferencesNull(env: OpenEnv)
    requires env.input.openRet >= 0 && env.input.streamInfoRet >= 0
    requires CodecOpens(env.input.video) && !CodecOpens(env.input.audio)
    ensures OpenAsWritten(env) == NullStreamDereference
  {
    OpenInputFileFromNull(env.input);
  }

  /** An audio-only input whose negotiation succeeds reaches the video stream's codec through NULL. */
  lemma {:induction false} AudioOnlyInputDereferencesNull(env: OpenEnv)
    requires env.input.openRet >= 0 && env.input.streamInfoRet >= 0
    requires !CodecOpens(env.input.video) && CodecOpens(env.input.audio)
    requires FastPath(env.audio)
    ensures OpenAsWritten(env) == NullStreamDereference
  {
    OpenInputFileFromNull(env.input);
    var r := OpenInputFile(env.input, None, None);
    assert r.error == 0 && r.audioStream.Some? && r.videoStream.None?;
    assert InitAudioResampler(env.audio, 0, 0, env.swr).error == 0;
  }

  // ---------------------------------------------------------------------
  // Per-packet classification (gang_decode_next_frame)
  // ---------------------------------------------------------------------

  /** av_read_frame's outcome: failure, or a packet of the given stream. */
  datatype ReadResult = ReadFailed | Packet(streamIndex: nat)

  /**
   * The return code of gang_decode_next_frame given the stream the read
   * packet belongs to and what the two decode paths would return.
   */
  function Classify(read: ReadResult, video: Option<nat>, audio: Option<nat>, videoRet: int, audioRet: int): (kind: int)
    ensures kind == GangEof || kind == GangErrorData || kind == GangVideoData || kind == GangAudioData
    ensures kind == GangEof <==> read.ReadFailed?
    ensures kind == GangVideoData <==> read.Packet? && video == Some(read.streamIndex) && videoRet == 0
    ensures kind == GangAudioData <==>
              && read.Packet? && audio == Some(read.streamIndex) && audioRet == 0
              && !(video == Some(read.streamIndex) && videoRet == 0)
  {
    if read.ReadFailed? then GangEof
    else if video == Some(read.streamIndex) && videoRet == 0 then GangVideoData
    else if audio == Some(read.streamIndex) && audioRet == 0 then GangAudioData
    else GangErrorData
  }

  /** Two distinct streams: a packet is video data only if it came from the video stream, and likewise for audio. */
  lemma {:induction false} ClassifyFollowsStream(read: ReadResult, v: nat, a: nat, videoRet: int, audioRet: int)
    requires v != a
    ensures var k := Classify(read, Some(v), Some(a), videoRet, audioRet);
            && (k == GangVideoData ==> read == Packet(v))
            && (k == GangAudioData ==> read == Packet(a))
            && (read == Packet(a) ==> (k == GangAudioData <==> audioRet == 0))
  {
  }

  // ---------------------------------------------------------------------
  // Decode outcomes
  // ---------------------------------------------------------------------

  /**
   * avcodec_decode_video2's outcome; `image` is what av_image_copy puts into
   * the video buffer.
   */
  datatype VideoDecode = VideoDecode(ret: int, gotPicture: bool, image: seq<Byte>)

  /** What gang_decode_next_video returns for a decode outcome. */
  function VideoReturn(dec: VideoDecode): (r: int)
    ensures r == 0 <==> dec.ret >= 0 && dec.gotPicture
    ensures dec.ret < 0 ==> r == dec.ret
    ensures dec.ret >= 0 && !dec.gotPicture ==> r == -1
  {
    if dec.ret < 0 then dec.ret else if !dec.gotPicture then -1 else 0
  }

  /** A decoded audio frame: its sample count and its planes (plane 0 only for packed audio). */
  datatype AudioFrame = AudioFrame(nbSamples: nat, planes: seq<seq<Byte>>)

  datatype AudioDecode = AudioDecode(ret: int, gotFrame: bool, frame: AudioFrame)

  /**
   * The opaque outcomes of the resample path: whether the scratch buffer
   * allocator finds memory, swr_convert's return and the bytes it writes.
   */
  datatype ResampleEnv = ResampleEnv(memoryOk: bool, convertRet: int, converted: seq<Byte>)

  // ---------------------------------------------------------------------
  // The decoder instance
  // ---------------------------------------------------------------------

  class Decoder {
    var url: string
    var noVideo: bool
    var noAudio: bool

    var width: int
    var height: int
    var fps: int
    var pixFmt: PixelFormat

    var sampleRate: int
    var channels: int
    var bytesPerSample: int
    var s16Status: SampleFormat

    /** video_dst_data[0] and video_dst_bufsize. */
    var videoDst: array?<Byte>
    var videoDstBufsize: int

    /** audio_dst_data (the pointer table), its plane 0, and the sample counts. */
    var audioDstTable: bool
    var audioDst: array?<Byte>
    var audioDstMaxNbSamples: int
    var audioDstNbSamples: int

    /** i_fmt_ctx, swr_ctx and i_frame are non-NULL. */
    var inputOpen: bool
    var hasResampler: bool
    var frameAllocated: bool

    /** video_stream and audio_stream, identified by stream index; None is NULL. */
    var videoStream: Option<nat>
    var audioStream: Option<nat>
    /** The audio stream's codec parameters. */
    var audioCodec: AudioCodecParams

    function ScratchOf(): Scratch
      reads this
    {
      Scratch(audioDstTable, if audioDst == null then None else Some(audioDst.Length), audioDstMaxNbSamples)
    }

    ghost predicate Valid()
      reads this
    {
      && bytesPerSample == BytesPerSample
      && channels >= 0
      && (s16Status == FmtNone || s16Status == FmtS16 || s16Status == FmtS16P)
      && (videoDst != null ==> videoDst.Length == videoDstBufsize)
      && ScratchSound(ScratchOf(), channels)
      && (videoDst != null && audioDst != null ==> videoDst != audioDst)
    }

    /** Nothing open and no buffer held: the state before open_gang_decoder. */
    ghost predicate Closed()
      reads this
    {
      && !inputOpen && !hasResampler && !frameAllocated
      && videoStream.None? && audioStream.None?
      && videoDst == null && !audioDstTable && audioDst == null && audioDstMaxNbSamples == 0
    }

    /** After a successful open_gang_decoder. */
    ghost predicate Ready()
      reads this
    {
      && inputOpen && frameAllocated
      && (videoStream.Some? || audioStream.Some?)
      && noVideo == videoStream.None? && noAudio == audioStream.None?
      && (videoStream.Some? ==> videoDst != null)
      && (hasResampler <==> audioStream.Some? && s16Status == FmtNone)
    }

    /** new_gang_decoder */
    constructor(url: string)
      ensures Valid() && Closed()
      ensures this.url == url && noVideo && noAudio
      ensures width == 0 && height == 0 && fps == 0 && pixFmt == PixFmtNone
      ensures channels == 0 && sampleRate == 0 && bytesPerSample == 2 && s16Status == FmtNone
      ensures videoDstBufsize == 0 && audioDstNbSamples == 0
    {
      this.url := url;
      noVideo := true;
      noAudio := true;
      width := 0;
      height := 0;
      fps := 0;
      pixFmt := PixFmtNone;
      channels := 0;
      sampleRate := 0;
      bytesPerSample := 2;
      s16Status := FmtNone;
      videoDst := null;
      videoDstBufsize := 0;
      audioDstTable := false;
      audioDst := null;
      audioDstMaxNbSamples := 0;
      audioDstNbSamples := 0;
      inputOpen := false;
      hasResampler := false;
      frameAllocated := false;
      videoStream := None;
      audioStream := None;
      audioCodec := AudioCodecParams(0, 0, FmtNone);
    }

    /** init_gang_video_info */
    method InitVideoInfo(video: VideoParams)
      modifies this`pixFmt, this`width, this`height, this`fps
      ensures pixFmt == video.pixFmt && width == video.width && height == video.height
      ensures video.frameRate.den == 0 ==> fps == UnknownRateFps
      ensures video.frameRate.den != 0 ==> Abs(fps) == Abs(video.frameRate.num) / Abs(video.frameRate.den)
      ensures fps == FpsOf(video.frameRate)
      ensures video.frameRate.den > 0 && video.frameRate.num >= 0 ==>
                fps * video.frameRate.den <= video.frameRate.num < (fps + 1) * video.frameRate.den
    {
      pixFmt := video.pixFmt;
      width := video.width;
      height := video.height;
      if video.frameRate.den != 0 {
        fps := CDiv(video.frameRate.num, video.frameRate.den);
      } else {
        fps := UnknownRateFps;
      }
      if video.frameRate.den > 0 && video.frameRate.num >= 0 {
        FpsIsWholeFrames(video.frameRate);
      }
    }

    /** init_gang_audio_info: the stream is handed on as it is. */
    method InitAudioInfo(audio: AudioCodecParams)
      modifies this`channels, this`sampleRate
      ensures channels == audio.channels && sampleRate == audio.sampleRate
    {
      channels := audio.channels;
      sampleRate := audio.sampleRate;
    }

    /** The init_audio_resampler call of open_gang_decoder, writing the decoder's out-fields. */
    method NegotiateAudio(audio: AudioCodecParams, swr: ResamplerSetup) returns (error: int)
      modifies this`audioCodec, this`channels, this`sampleRate, this`s16Status, this`hasResampler
      ensures var n := InitAudioResampler(audio, old(channels), old(sampleRate), swr);
              && error == n.error && channels == n.outChannels && sampleRate == n.outSampleRate
              && s16Status == n.status && hasResampler == n.hasResampler
      ensures audioCodec == audio
      ensures old(channels) >= 0 && audio.channels >= 0 ==> channels >= 0
      ensures s16Status == FmtNone || s16Status == FmtS16 || s16Status == FmtS16P
      ensures error == 0 ==> DeliveredChannels(audio, InitAudioResampler(audio, old(channels), old(sampleRate), swr)) <= MaxFastChannels
    {
      audioCodec := audio;
      var n := InitAudioResampler(audio, channels, sampleRate, swr);
      channels := n.outChannels;
      sampleRate := n.outSampleRate;
      s16Status := n.status;
      hasResampler := n.hasResampler;
      error := n.error;
      if error == 0 {
        NegotiatedOutputWithinLimits(audio, old(channels), old(sampleRate), swr);
      }
    }

    /** init_gang_video_decode_buffer; `allocRet` is av_image_alloc's return, the buffer size or a negative error. */
    method InitVideoDecodeBuffer(allocRet: int) returns (error: int)
      modifies this`videoDst, this`videoDstBufsize
      ensures allocRet < 0 ==> error == -1 && videoDst == old(videoDst) && videoDstBufsize == old(videoDstBufsize)
      ensures allocRet >= 0 ==> error == 0 && videoDst != null && fresh(videoDst) && videoDst.Length == allocRet && videoDstBufsize == allocRet
    {
      if allocRet < 0 {
        return -1;
      }
      videoDst := new Byte[allocRet];
      videoDstBufsize := allocRet;
      return 0;
    }

    /** The audio side of open_gang_decoder: negotiation, then the stream's own parameters when no resampler is needed. */
    method OpenAudio(audio: AudioCodecParams, swr: ResamplerSetup) returns (error: int)
      requires channels >= 0 && audio.channels >= 0
      modifies this`audioCodec, this`channels, this`sampleRate, this`s16Status, this`hasResampler
      ensures var n := InitAudioResampler(audio, old(channels), old(sampleRate), swr);
              && error == n.error && s16Status == n.status && hasResampler == n.hasResampler
              && (error == 0 ==> channels == DeliveredChannels(audio, n) && sampleRate == DeliveredSampleRate(audio, n))
      ensures channels >= 0
      ensures s16Status == FmtNone || s16Status == FmtS16 || s16Status == FmtS16P
      ensures hasResampler <==> error == 0 && s16Status == FmtNone
      ensures error == 0 ==> channels <= MaxFastChannels
    {
      error := NegotiateAudio(audio, swr);
      if error == 0 && !hasResampler {
        InitAudioInfo(audio);
      }
    }

    /** The video side of open_gang_decoder: the stream's parameters, then the image buffer. */
    method OpenVideo(video: VideoParams, imageAllocRet: int) returns (error: int)
      modifies this`pixFmt, this`width, this`height, this`fps, this`videoDst, this`videoDstBufsize
      ensures pixFmt == video.pixFmt && width == video.width && height == video.height
      ensures video.frameRate.den == 0 ==> fps == UnknownRateFps
      ensures fps == FpsOf(video.frameRate)
      ensures imageAllocRet < 0 ==> error == -1 && videoDst == old(videoDst) && videoDstBufsize == old(videoDstBufsize)
      ensures imageAllocRet >= 0 ==> error == 0 && videoDst != null && fresh(videoDst) && videoDst.Length == videoDstBufsize
    {
      InitVideoInfo(video);
      error := InitVideoDecodeBuffer(imageAllocRet);
    }

    /**
     * The part of open_gang_decoder after open_input_file: audio negotiation,
     * video parameters and buffers, each only for a stream that exists.
     */
    method OpenDecoders(env: OpenEnv) returns (error: int)
      requires Valid() && inputOpen && (videoStream.Some? || audioStream.Some?)
      requires !hasResampler && !frameAllocated && videoDst == null
      requires audioDstMaxNbSamples == 0 && !audioDstTable && audioDst == null
      requires env.audio.channels >= 0
      modifies this`audioCodec, this`channels, this`sampleRate, this`s16Status, this`hasResampler
      modifies this`pixFmt, this`width, this`height, this`fps, this`videoDst, this`videoDstBufsize
      modifies this`frameAllocated, this`noVideo, this`noAudio
      ensures Valid()
      ensures error == 0 ==> Ready()
      ensures inputOpen && videoStream == old(videoStream) && audioStream == old(audioStream)
      ensures error == 0 && videoStream.Some? ==>
                width == env.video.width && height == env.video.height && pixFmt == env.video.pixFmt
      ensures error == 0 && videoStream.Some? && env.video.frameRate.den == 0 ==> fps == UnknownRateFps
      ensures error == 0 && videoStream.Some? ==> fps == FpsOf(env.video.frameRate)
      ensures error == 0 && audioStream.Some? && !FastPath(env.audio) ==>
                channels == Min(env.audio.channels, MaxFastChannels) && s16Status == FmtNone
      ensures error == 0 && audioStream.Some? && FastPath(env.audio) ==>
                channels == env.audio.channels && sampleRate == env.audio.sampleRate && s16Status == env.audio.sampleFmt
      ensures error == 0 && audioStream.Some? ==> channels <= MaxFastChannels
      ensures audioStream.Some? && InitAudioResampler(env.audio, old(channels), old(sampleRate), env.swr).error != 0 ==>
                error == InitAudioResampler(env.audio, old(channels), old(sampleRate), env.swr).error
      ensures audioStream.Some? && InitAudioResampler(env.audio, old(channels), old(sampleRate), env.swr).error == 0 ==>
                error == (if videoStream.Some? && env.imageAllocRet < 0 then -1
                          else if !env.frameAllocOk then AVError(ENOMEM) else 0)
      ensures audioDstMaxNbSamples == 0 && !audioDstTable && audioDst == null
    {
      if audioStream.Some? {
        error := OpenAudio(env.audio, env.swr);
        if error != 0 {
          return;
        }
      }
      error := OpenPicture(env.video, env.imageAllocRet, env.frameAllocOk);
    }

    /** The rest of open_gang_decoder once audio is settled: the video stream's parameters and buffer, then the frame. */
    method OpenPicture(video: VideoParams, imageAllocRet: int, frameAllocOk: bool) returns (error: int)
      requires Valid() && videoDst == null && audioDst == null && !frameAllocated
      modifies this`pixFmt, this`width, this`height, this`fps, this`videoDst, this`videoDstBufsize
      modifies this`frameAllocated, this`noVideo, this`noAudio
      ensures Valid()
      ensures error == (if videoStream.Some? && imageAllocRet < 0 then -1 else if !frameAllocOk then AVError(ENOMEM) else 0)
      ensures error == 0 ==> frameAllocated && noVideo == videoStream.None? && noAudio == audioStream.None?
      ensures error == 0 && videoStream.Some? ==>
                videoDst != null && width == video.width && height == video.height && pixFmt == video.pixFmt
      ensures error == 0 && videoStream.Some? && video.frameRate.den == 0 ==> fps == UnknownRateFps
      ensures error == 0 && videoStream.Some? ==> fps == FpsOf(video.frameRate)
    {
      if videoStream.Some? {
        error := OpenVideo(video, imageAllocRet);
        if error != 0 {
          return;
        }
      }
      error := AllocateFrame(frameAllocOk);
    }

    /** The av_frame_alloc step of open_gang_decoder, then the no_video and no_audio flags. */
    method AllocateFrame(frameAllocOk: bool) returns (error: int)
      modifies this`frameAllocated, this`noVideo, this`noAudio
      ensures !frameAllocOk ==> error == AVError(ENOMEM) && frameAllocated == old(frameAllocated)
      ensures frameAllocOk ==> error == 0 && frameAllocated
      ensures frameAllocOk ==> noVideo == videoStream.None? && noAudio == audioStream.None?
    {
      if !frameAllocOk {
        return AVError(ENOMEM);
      }
      frameAllocated := true;
      noVideo := videoStream.None?;
      noAudio := audioStream.None?;
      return 0;
    }

    /** open_gang_decoder, reading a stream's codec only when that stream exists. */
    method Open(env: OpenEnv) returns (error: int)
      requires Valid() && Closed()
      requires env.audio.channels >= 0
      modifies this
      ensures Valid()
      ensures error == 0 ==> Ready()
      ensures error == 0 && videoStream.Some? ==>
                width == env.video.width && height == env.video.height && pixFmt == env.video.pixFmt
      ensures error == 0 && videoStream.Some? && env.video.frameRate.den == 0 ==> fps == UnknownRateFps
      ensures error == 0 && videoStream.Some? ==> fps == FpsOf(env.video.frameRate)
      ensures error == 0 && audioStream.Some? && !FastPath(env.audio) ==>
                channels == Min(env.audio.channels, MaxFastChannels) && s16Status == FmtNone
      ensures error == 0 && audioStream.Some? && FastPath(env.audio) ==>
                channels == env.audio.channels && sampleRate == env.audio.sampleRate && s16Status == env.audio.sampleFmt
      ensures error == 0 && audioStream.Some? ==> channels <= MaxFastChannels
      ensures var r := OpenInputFile(env.input, None, None);
              && (r.error != 0 ==> error == r.error)
              && (r.error == 0 ==> videoStream == r.videoStream && audioStream == r.audioStream)
      ensures videoStream.Some? && audioStream.Some? ==> OpenAsWritten(env) == Returned(error)
      ensures audioDstMaxNbSamples == 0 && !audioDstTable && audioDst == null
    {
      var r := OpenInputFile(env.input, videoStream, audioStream);
      inputOpen := r.contextOpen;
      videoStream := r.videoStream;
      audioStream := r.audioStream;
      if r.error != 0 {
        return r.error;
      }
      error := OpenDecoders(env);
      if videoStream.Some? && audioStream.Some? {
        // The error of init_audio_resampler does not depend on the values its
        // out-parameters hold on entry.
        assert InitAudioResampler(env.audio, old(channels), old(sampleRate), env.swr).error
            == InitAudioResampler(env.audio, 0, 0, env.swr).error;
      }
    }

    /** close_gang_decoder, which also forgets the capacity of the freed scratch buffer. */
    method Close()
      requires Valid()
      modifies this`inputOpen, this`videoDst, this`videoStream, this`audioStream, this`hasResampler
      modifies this`audioDstTable, this`audioDst, this`audioDstMaxNbSamples, this`frameAllocated
      ensures Valid() && Closed()
      ensures channels == old(channels) && sampleRate == old(sampleRate) && s16Status == old(s16Status)
      ensures width == old(width) && height == old(height) && fps == old(fps)
    {
      CloseInput();
      FreeScratch();
    }

    /** The input, resampler, frame and image-buffer half of close_gang_decoder. */
    method CloseInput()
      modifies this`inputOpen, this`videoDst, this`videoStream, this`audioStream, this`hasResampler, this`frameAllocated
      ensures !inputOpen && !hasResampler && !frameAllocated
      ensures videoStream.None? && audioStream.None? && videoDst == null
    {
      inputOpen := false;
      videoDst := null;
      videoStream := None;
      audioStream := None;
      hasResampler := false;
      frameAllocated := false;
    }

    /** The resample scratch half of close_gang_decoder. */
    method FreeScratch()
      modifies this`audioDstTable, this`audioDst, this`audioDstMaxNbSamples
      ensures !audioDstTable && audioDst == null && audioDstMaxNbSamples == 0
    {
      audioDstTable := false;
      audioDst := null;
      audioDstMaxNbSamples := 0;
    }

    /** gang_decode_next_video: `data` is null and `size` 0 where the source leaves them unwritten. */
    method DecodeNextVideo(dec: VideoDecode) returns (error: int, data: array?<Byte>, size: int)
      requires Valid() && Ready() && videoStream.Some?
      requires dec.ret >= 0 && dec.gotPicture ==> |dec.image| == videoDstBufsize
      modifies videoDst
      ensures Valid()
      ensures error == VideoReturn(dec)
      ensures error != 0 ==> data == null && size == 0 && unchanged(videoDst)
      ensures error == 0 ==> data != null && fresh(data) && data[..] == dec.image && size == |dec.image|
      ensures error == 0 ==> videoDst[..] == dec.image
    {
      if dec.ret < 0 {
        return dec.ret, null, 0;
      }
      if !dec.gotPicture {
        return -1, null, 0;
      }
      CopyAt(videoDst, 0, dec.image);
      assert videoDst[..] == videoDst[..|dec.image|];
      data := NewCopy(videoDst[..videoDstBufsize]);
      size := videoDstBufsize;
      error := 0;
    }

    /**
     * The reallocation branch of prepare_resample_buffer: plane 0 is freed
     * (when the table exists) and a plane for `required` samples allocated;
     * on failure the recorded capacity is reset with it.
     */
    method GrowScratch(required: int, memoryOk: bool) returns (ret: int)
      requires required > audioDstMaxNbSamples
      requires audioDst != null ==> audioDstTable
      modifies this`audioDst, this`audioDstTable, this`audioDstMaxNbSamples
      ensures var p := PrepareScratch(old(ScratchOf()), required, channels, memoryOk);
              ScratchOf() == p.scratch && ret == p.ret
      ensures audioDst != null ==> fresh(audioDst)
    {
      var size: int;
      if audioDstTable {
        audioDst := null;
        size := SamplesBufferSize(channels, required, false);
      } else {
        size := SamplesBufferSize(channels, required, true);
      }
      if size < 0 || !memoryOk {
        ret := if size < 0 then size else AVError(ENOMEM);
        audioDstMaxNbSamples := 0;
        return;
      }
      audioDst := new Byte[size];
      audioDstTable := true;
      audioDstMaxNbSamples := required;
      ret := 0;
    }

    /** prepare_resample_buffer */
    method PrepareResampleBuffer(nbSamples: nat, memoryOk: bool) returns (ret: int)
      requires Valid()
      modifies this`audioDstNbSamples, this`audioDst, this`audioDstTable, this`audioDstMaxNbSamples
      ensures Valid()
      ensures audioDstNbSamples == RescaleUp(nbSamples, sampleRate, audioCodec.sampleRate)
      ensures var p := PrepareScratch(old(ScratchOf()), audioDstNbSamples, channels, memoryOk);
              ScratchOf() == p.scratch && ret == p.ret
      ensures audioDst != null && audioDst != old(audioDst) ==> fresh(audioDst)
      ensures ret == 0 ==> audioDstNbSamples <= audioDstMaxNbSamples
    {
      audioDstNbSamples := RescaleUp(nbSamples, sampleRate, audioCodec.sampleRate);
      PrepareScratchKeepsSound(ScratchOf(), audioDstNbSamples, channels, memoryOk);
      if audioDstNbSamples > audioDstMaxNbSamples {
        ret := GrowScratch(audioDstNbSamples, memoryOk);
      } else {
        ret := 0;
      }
    }

    /**
     * swr_convert's output lands at the start of plane 0, and the first
     * `converted` bytes are copied out into a fresh buffer. The plane, sized
     * for audio_dst_max_nb_samples frames, has room for them.
     */
    method DeliverConverted(converted: seq<Byte>, samples: int) returns (data: array<Byte>)
      requires Valid()
      requires 0 < samples <= audioDstMaxNbSamples
      requires |converted| == samples * channels * BytesPerSample
      modifies audioDst
      ensures Valid()
      ensures fresh(data) && data[..] == converted
    {
      MulMono(samples, audioDstMaxNbSamples, channels * BytesPerSample);
      assert samples * channels * BytesPerSample == samples * (channels * BytesPerSample);
      assert audioDstMaxNbSamples * (channels * BytesPerSample) == channels * audioDstMaxNbSamples * BytesPerSample;
      CopyAt(audioDst, 0, converted);
      data := NewCopy(audioDst[..|converted|]);
    }

    /** The return code of the resample path for the current state. */
    function ResampleReturn(nbSamples: nat, env: ResampleEnv): (r: int)
      reads this
      ensures r <= 0
      ensures !hasResampler ==> r == -1
      ensures r == 0 ==> hasResampler && env.convertRet > 0 && channels > 0
    {
      if !hasResampler then -1
      else
        var p := PrepareScratch(ScratchOf(), RescaleUp(nbSamples, sampleRate, audioCodec.sampleRate), channels, env.memoryOk);
        if p.ret < 0 then p.ret
        else if env.convertRet < 0 then env.convertRet
        else ResampleTail(env.convertRet, channels).ret
    }

    /**
     * resample_and_copy, returning the size error and the produced sample
     * count. swr_convert never produces more samples than it is asked for, and
     * what it produces is `convertRet` packed frames.
     */
    method ResampleAndCopy(nbSamples: nat, env: ResampleEnv) returns (ret: int, data: array?<Byte>, count: int)
      requires Valid()
      requires env.convertRet <= RescaleUp(nbSamples, sampleRate, audioCodec.sampleRate)
      requires env.convertRet >= 0 ==> |env.converted| == env.convertRet * channels * BytesPerSample
      modifies this`audioDstNbSamples, this`audioDst, this`audioDstTable, this`audioDstMaxNbSamples, audioDst
      ensures Valid()
      ensures ret == old(ResampleReturn(nbSamples, env))
      ensures ret == 0 ==> data != null && fresh(data) && data[..] == env.converted && count == env.convertRet
      ensures ret == 0 ==> |data[..]| == count * channels * BytesPerSample
      ensures ret != 0 ==> data == null && count == 0
    {
      data := null;
      count := 0;
      if !hasResampler {
        return -1, null, 0;
      }
      ret := PrepareResampleBuffer(nbSamples, env.memoryOk);
      if ret < 0 {
        return;
      }
      if env.convertRet < 0 {
        return env.convertRet, null, 0;
      }
      var tail := ResampleTail(env.convertRet, channels);
      if tail.ret != 0 {
        return tail.ret, null, 0;
      }
      data := DeliverConverted(env.converted, env.convertRet);
      count := tail.sampleCount;
      ret := 0;
    }

    /** The return code of gang_decode_next_audio for the current state. */
    function AudioReturn(dec: AudioDecode, env: ResampleEnv): (r: int)
      reads this
      ensures r <= 0
      ensures dec.ret < 0 ==> r == dec.ret
      ensures r == 0 ==> dec.ret >= 0 && dec.gotFrame && dec.frame.nbSamples * bytesPerSample * channels >= 1
      ensures s16Status != FmtNone ==>
                (r == 0 <==> dec.ret >= 0 && dec.gotFrame && dec.frame.nbSamples * bytesPerSample * channels >= 1)
      ensures s16Status == FmtNone && dec.ret >= 0 && dec.gotFrame && dec.frame.nbSamples * bytesPerSample * channels >= 1 ==>
                r == ResampleReturn(dec.frame.nbSamples, env)
    {
      if dec.ret < 0 then dec.ret
      else if !dec.gotFrame then -1
      else if dec.frame.nbSamples * bytesPerSample * channels < 1 then -1
      else if s16Status == FmtNone then ResampleReturn(dec.frame.nbSamples, env)
      else 0
    }

    /**
     * What the decoder relies on from the library for one audio unit: a
     * decoded frame carries the planes its format promises, and the resampler
     * produces at most the requested number of frames, `convertRet` packed
     * frames of the output channel count.
     */
    ghost predicate AudioDelivered(dec: AudioDecode, env: ResampleEnv)
      reads this
    {
      && (dec.ret >= 0 && dec.gotFrame && s16Status == FmtS16P && channels >= 0 ==>
            PlanesCover(dec.frame.planes, dec.frame.nbSamples, channels))
      && (dec.ret >= 0 && dec.gotFrame && s16Status == FmtS16 ==>
            |dec.frame.planes| >= 1 && |dec.frame.planes[0]| >= dec.frame.nbSamples * bytesPerSample * channels)
      && env.convertRet <= RescaleUp(dec.frame.nbSamples, sampleRate, audioCodec.sampleRate)
      && (env.convertRet >= 0 ==> |env.converted| == env.convertRet * channels * BytesPerSample)
    }

    /**
     * The bytes gang_decode_next_audio hands out for a unit of `count` samples:
     * the interleaved planes for planar 16-bit audio, a copy of plane 0 for
     * packed 16-bit audio, and the converted bytes otherwise.
     */
    ghost predicate AudioPayload(dec: AudioDecode, env: ResampleEnv, data: array<Byte>, count: int)
      reads this, data
    {
      && data.Length == count * channels * BytesPerSample
      && (s16Status == FmtS16P ==>
            && count == dec.frame.nbSamples && channels >= 0
            && PlanesCover(dec.frame.planes, dec.frame.nbSamples, channels)
            && data[..] == Packed(dec.frame.planes, dec.frame.nbSamples, channels))
      && (s16Status == FmtS16 ==>
            && count == dec.frame.nbSamples && |dec.frame.planes| >= 1 && data.Length <= |dec.frame.planes[0]|
            && data[..] == dec.frame.planes[0][..data.Length])
      && (s16Status == FmtNone ==> count == env.convertRet && data[..] == env.converted)
    }

    /**
     * gang_decode_next_audio: planar 16-bit audio is interleaved, packed
     * 16-bit audio copied, anything else resampled. `count` is the sample
     * count handed back through `*nb_samples`.
     */
    method DecodeNextAudio(dec: AudioDecode, env: ResampleEnv) returns (ret: int, data: array?<Byte>, count: int)
      requires Valid() && Ready() && audioStream.Some?
      requires AudioDelivered(dec, env)
      modifies this`audioDstNbSamples, this`audioDst, this`audioDstTable, this`audioDstMaxNbSamples, audioDst
      ensures Valid()
      ensures ret == old(AudioReturn(dec, env))
      ensures ret != 0 ==> data == null && count == 0
      ensures ret == 0 ==> data != null && fresh(data) && AudioPayload(dec, env, data, count)
    {
      if dec.ret < 0 {
        return dec.ret, null, 0;
      }
      if !dec.gotFrame {
        return -1, null, 0;
      }
      var nb := dec.frame.nbSamples;
      var outputLinesize := nb * bytesPerSample * channels;
      if outputLinesize < 1 {
        return -1, null, 0;
      }
      if s16Status == FmtNone {
        ret, data, count := ResampleAndCopy(nb, env);
        return;
      }
      assert outputLinesize == nb * channels * BytesPerSample;
      var tmp := new Byte[outputLinesize];
      if s16Status == FmtS16P {
        S16pToS16(tmp, dec.frame.planes, nb, channels);
      } else {
        CopyAt(tmp, 0, dec.frame.planes[0][..outputLinesize]);
      }
      return 0, tmp, nb;
    }

    /**
     * gang_decode_next_frame: read one packet and hand it to the decode path
     * of the stream it belongs to. `size` is the byte count for video and the
     * sample count for audio.
     */
    method DecodeNextFrame(read: ReadResult, vdec: VideoDecode, adec: AudioDecode, env: ResampleEnv)
      returns (kind: int, data: array?<Byte>, size: int)
      requires Valid() && Ready()
      requires vdec.ret >= 0 && vdec.gotPicture ==> |vdec.image| == videoDstBufsize
      requires AudioDelivered(adec, env)
      modifies this`audioDstNbSamples, this`audioDst, this`audioDstTable, this`audioDstMaxNbSamples, audioDst, videoDst
      ensures Valid()
      ensures kind == Classify(read, videoStream, audioStream, VideoReturn(vdec), old(AudioReturn(adec, env)))
      ensures kind == GangVideoData ==> data != null && fresh(data) && data[..] == vdec.image && size == |vdec.image|
      ensures kind == GangAudioData ==> data != null && fresh(data) && AudioPayload(adec, env, data, size)
      ensures kind == GangEof || kind == GangErrorData ==> data == null
    {
      if read.ReadFailed? {
        return GangEof, null, 0;
      }
      ghost var audioRet := AudioReturn(adec, env);
      if videoStream == Some(read.streamIndex) {
        var error, d, n := DecodeNextVideo(vdec);
        if error == 0 {
          return GangVideoData, d, n;
        }
        assert AudioReturn(adec, env) == audioRet && AudioDelivered(adec, env);
      }
      kind, data, size := DecodeAudioPacket(read.streamIndex, adec, env);
    }

    /** The audio branch of gang_decode_next_frame, reached when the packet did not yield a picture. */
    method DecodeAudioPacket(streamIndex: nat, adec: AudioDecode, env: ResampleEnv)
      returns (kind: int, data: array?<Byte>, size: int)
      requires Valid() && Ready()
      requires AudioDelivered(adec, env)
      modifies this`audioDstNbSamples, this`audioDst, this`audioDstTable, this`audioDstMaxNbSamples, audioDst
      ensures Valid()
      ensures kind == (if audioStream == Some(streamIndex) && old(AudioReturn(adec, env)) == 0 then GangAudioData else GangErrorData)
      ensures kind == GangAudioData ==> data != null && fresh(data) && AudioPayload(adec, env, data, size)
      ensures kind == GangErrorData ==> data == null
    {
      if audioStream == Some(streamIndex) {
        var error, d, n := DecodeNextAudio(adec, env);
        if error == 0 {
          return GangAudioData, d, n;
        }
      }
      return GangErrorData, null, 0;
    }
  }
}
