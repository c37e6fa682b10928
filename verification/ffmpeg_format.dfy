/**
 * Stream opening, audio output-format negotiation and the planar-to-packed
 * 16-bit repack of ffmpeg_format.c.
 *
 * Every libav* call is opaque: its return code (and, where it produces data,
 * the data) is a parameter of the model.
 */
module FfmpegFormat {
  import opened Common

  /** errno values used with AVERROR, which negates its argument. */
  const ENOMEM: int := 12
  const EINVAL: int := 22

  function AVError(e: int): int { -e }

  /** FFERRTAG(0xF8, 'S', 'T', 'R'): already a negative code. */
  const AVERROR_STREAM_NOT_FOUND: int := -0x525453F8

  /**
   * What open_input_file returns when no stream could be opened. The source
   * wraps an already negative code in AVERROR once more, so the value is
   * positive; callers only test it against zero.
   */
  const StreamNotFoundResult: int := AVError(AVERROR_STREAM_NOT_FOUND)

  datatype SampleFormat =
    | FmtNone | FmtU8 | FmtS16 | FmtS32 | FmtFlt | FmtDbl
    | FmtU8P | FmtS16P | FmtS32P | FmtFltP | FmtDblP | FmtS64 | FmtS64P

  // ---------------------------------------------------------------------
  // open_codec_context
  // ---------------------------------------------------------------------

  /**
   * Opaque outcomes of the three library calls open_codec_context makes:
   * av_find_best_stream (a stream index or a negative error),
   * avcodec_find_decoder (found or not) and avcodec_open2 (its return code).
   */
  datatype CodecProbe = CodecProbe(bestStream: int, decoderFound: bool, openRet: int)

  predicate CodecOpens(p: CodecProbe) {
    p.bestStream >= 0 && p.decoderFound && p.openRet >= 0
  }

  /** The return code and the final value of the `*stream_idx` out-parameter. */
  datatype CodecOpen = CodecOpen(ret: int, streamIdx: int)

  function OpenCodecContext(streamIdx: int, probe: CodecProbe): (r: CodecOpen)
    ensures r.ret == 0 <==> CodecOpens(probe)
    ensures r.ret <= 0
    ensures r.ret == 0 ==> r.streamIdx == probe.bestStream && r.streamIdx >= 0
    ensures r.ret != 0 ==> r.streamIdx == streamIdx
    ensures probe.bestStream < 0 ==> r.ret == probe.bestStream
    ensures probe.bestStream >= 0 && !probe.decoderFound ==> r.ret == AVError(EINVAL)
    ensures probe.bestStream >= 0 && probe.decoderFound && probe.openRet < 0 ==> r.ret == probe.openRet
  {
    if probe.bestStream < 0 then CodecOpen(probe.bestStream, streamIdx)
    else if !probe.decoderFound then CodecOpen(AVError(EINVAL), streamIdx)
    else if probe.openRet < 0 then CodecOpen(probe.openRet, streamIdx)
    else CodecOpen(0, probe.bestStream)
  }

  // ---------------------------------------------------------------------
  // open_input_file
  // ---------------------------------------------------------------------

  /**
   * Opaque outcomes of avformat_open_input, avformat_find_stream_info and of
   * the probes behind the two open_codec_context calls.
   */
  datatype InputProbe = InputProbe(openRet: int, streamInfoRet: int, video: CodecProbe, audio: CodecProbe)

  /**
   * The return code, whether the input context is left open, and the two
   * stream out-parameters (a stream is identified by its index; None is NULL).
   */
  datatype InputOpen = InputOpen(error: int, contextOpen: bool, videoStream: Option<nat>, audioStream: Option<nat>)

  /** The stream out-parameter after one open_codec_context call. */
  function StreamAfterProbe(prior: Option<nat>, probe: CodecProbe): (s: Option<nat>)
    ensures CodecOpens(probe) ==> s == Some(probe.bestStream as nat)
    ensures !CodecOpens(probe) ==> s == prior
  {
    var c := OpenCodecContext(0, probe);
    if c.ret >= 0 then Some(c.streamIdx as nat) else prior
  }

  /**
   * `videoStream` and `audioStream` are the values the out-parameters hold on
   * entry: the source overwrites them only when a codec opens, and decides
   * "no stream at all" on whatever they then hold.
   */
  function OpenInputFile(probe: InputProbe, videoStream: Option<nat>, audioStream: Option<nat>): (r: InputOpen)
    ensures r.contextOpen <==> r.error == 0
    ensures probe.openRet < 0 ==> r.error == probe.openRet
    ensures probe.openRet >= 0 && probe.streamInfoRet < 0 ==> r.error == probe.streamInfoRet
    ensures probe.openRet >= 0 && probe.streamInfoRet >= 0 ==>
              && r.videoStream == StreamAfterProbe(videoStream, probe.video)
              && r.audioStream == StreamAfterProbe(audioStream, probe.audio)
              && (r.error == StreamNotFoundResult <==> r.videoStream.None? && r.audioStream.None?)
              && (r.error == 0 <==> r.videoStream.Some? || r.audioStream.Some?)
  {
    if probe.openRet < 0 then
      InputOpen(probe.openRet, false, videoStream, audioStream)
    else if probe.streamInfoRet < 0 then
      InputOpen(probe.streamInfoRet, false, videoStream, audioStream)
    else
      var v := StreamAfterProbe(videoStream, probe.video);
      var a := StreamAfterProbe(audioStream, probe.audio);
      if v.None? && a.None? then InputOpen(StreamNotFoundResult, false, v, a)
      else InputOpen(0, true, v, a)
  }

  /** A fresh decoder enters with both stream pointers NULL. */
  lemma {:induction false} OpenInputFileFromNull(probe: InputProbe)
    requires probe.openRet >= 0 && probe.streamInfoRet >= 0
    ensures var r := OpenInputFile(probe, None, None);
            && (r.error == 0 <==> CodecOpens(probe.video) || CodecOpens(probe.audio))
            && (r.videoStream.Some? <==> CodecOpens(probe.video))
            && (r.audioStream.Some? <==> CodecOpens(probe.audio))
  {
    var r := OpenInputFile(probe, None, None);
    assert r.videoStream == StreamAfterProbe(None, probe.video);
    assert r.audioStream == StreamAfterProbe(None, probe.audio);
  }

  // ---------------------------------------------------------------------
  // init_audio_resampler
  // ---------------------------------------------------------------------

  datatype AudioCodecParams = AudioCodecParams(channels: int, sampleRate: int, sampleFmt: SampleFormat)

  /** Opaque outcomes of swr_alloc_set_opts (non-NULL or not) and swr_init. */
  datatype ResamplerSetup = ResamplerSetup(allocOk: bool, initRet: int)

  /**
   * The return code and the out-parameters after init_audio_resampler:
   * `status` is `*s16_status`, `hasResampler` whether `*resample_context`
   * is non-NULL.
   */
  datatype Negotiation = Negotiation(error: int, status: SampleFormat, outChannels: int, outSampleRate: int, hasResampler: bool)

  const MaxFastChannels: int := 2
  const MaxFastSampleRate: int := 96000
  const FallbackSampleRate: int := 44100

  /** The input can be handed on as 16-bit samples without a resampler. */
  predicate FastPath(input: AudioCodecParams) {
    && input.channels <= MaxFastChannels
    && input.sampleRate <= MaxFastSampleRate
    && (input.sampleFmt == FmtS16 || input.sampleFmt == FmtS16P)
  }

  /**
   * `outChannels` and `outSampleRate` are the values of the out-parameters on
   * entry, which the fast path leaves as they are.
   */
  function InitAudioResampler(input: AudioCodecParams, outChannels: int, outSampleRate: int, swr: ResamplerSetup): (n: Negotiation)
    ensures FastPath(input) ==>
              && n.error == 0 && !n.hasResampler
              && n.status == input.sampleFmt
              && n.outChannels == outChannels && n.outSampleRate == outSampleRate
    ensures !FastPath(input) ==>
              && n.status == FmtNone
              && n.outChannels == Min(input.channels, MaxFastChannels)
              && n.outSampleRate == (if input.sampleRate > MaxFastSampleRate then FallbackSampleRate else input.sampleRate)
              && (n.error == 0 <==> swr.allocOk && swr.initRet >= 0)
              && (n.hasResampler <==> n.error == 0)
    ensures !FastPath(input) && !swr.allocOk ==> n.error == AVError(ENOMEM)
    ensures !FastPath(input) && swr.allocOk && swr.initRet < 0 ==> n.error == swr.initRet
  {
    if input.channels <= 2 && input.sampleRate <= 96000 && input.sampleFmt == FmtS16 then
      Negotiation(0, FmtS16, outChannels, outSampleRate, false)
    else if input.channels <= 2 && input.sampleRate <= 96000 && input.sampleFmt == FmtS16P then
      Negotiation(0, FmtS16P, outChannels, outSampleRate, false)
    else
      var chs := if input.channels > 2 then 2 else input.channels;
      var rate := if input.sampleRate > 96000 then 44100 else input.sampleRate;
      if !swr.allocOk then Negotiation(AVError(ENOMEM), FmtNone, chs, rate, false)
      else if swr.initRet < 0 then Negotiation(swr.initRet, FmtNone, chs, rate, false)
      else Negotiation(0, FmtNone, chs, rate, true)
  }

  /** The channel count and rate the consumers see after a successful negotiation. */
  function DeliveredChannels(input: AudioCodecParams, n: Negotiation): int {
    if n.status == FmtNone then n.outChannels else input.channels
  }

  function DeliveredSampleRate(input: AudioCodecParams, n: Negotiation): int {
    if n.status == FmtNone then n.outSampleRate else input.sampleRate
  }

  /**
   * Whatever the input, a successful negotiation delivers packed or planar
   * 16-bit audio with at most two channels at no more than 96 kHz, and a
   * resampler exists exactly when the input was not already such audio.
   */
  lemma {:induction false} NegotiatedOutputWithinLimits(input: AudioCodecParams, outChannels: int, outSampleRate: int, swr: ResamplerSetup)
    requires InitAudioResampler(input, outChannels, outSampleRate, swr).error == 0
    ensures var n := InitAudioResampler(input, outChannels, outSampleRate, swr);
            && DeliveredChannels(input, n) <= MaxFastChannels
            && DeliveredSampleRate(input, n) <= MaxFastSampleRate
            && (n.status == FmtS16 || n.status == FmtS16P || n.status == FmtNone)
            && (n.hasResampler <==> !FastPath(input))
  {
    var n := InitAudioResampler(input, outChannels, outSampleRate, swr);
    if FastPath(input) {
      assert n.status == input.sampleFmt;
    } else {
      assert n.outChannels == Min(input.channels, 2);
    }
  }

  // ---------------------------------------------------------------------
  // s16p_2_s16
  // ---------------------------------------------------------------------

  const BytesPerSample: nat := 2

  /** Every one of the first `channels` planes holds `samples` 16-bit samples. */
  ghost predicate PlanesCover(planes: seq<seq<Byte>>, samples: nat, channels: nat) {
    channels <= |planes| && forall c :: 0 <= c < channels ==> 2 * samples <= |planes[c]|
  }

  /** Sample `i` of planes 0 .. channels-1, one after the other. */
  ghost function Frame(planes: seq<seq<Byte>>, i: nat, channels: nat): (r: seq<Byte>)
    requires PlanesCover(planes, i + 1, channels)
    ensures |r| == 2 * channels
  {
    if channels == 0 then [] else Frame(planes, i, channels - 1) + planes[channels - 1][2 * i .. 2 * i + 2]
  }

  /** The packed (interleaved) layout of the first `samples` samples. */
  ghost function Packed(planes: seq<seq<Byte>>, samples: nat, channels: nat): (r: seq<Byte>)
    requires PlanesCover(planes, samples, channels)
  {
    if samples == 0 then [] else Packed(planes, samples - 1, channels) + Frame(planes, samples - 1, channels)
  }

  lemma {:induction false} PackedLength(planes: seq<seq<Byte>>, samples: nat, channels: nat)
    requires PlanesCover(planes, samples, channels)
    ensures |Packed(planes, samples, channels)| == samples * channels * BytesPerSample
  {
    if samples > 0 {
      PackedLength(planes, samples - 1, channels);
      assert samples * channels * 2 == (samples - 1) * channels * 2 + 2 * channels;
    }
  }

  lemma {:induction false} FrameAt(planes: seq<seq<Byte>>, i: nat, channels: nat, ch: nat, k: nat)
    requires PlanesCover(planes, i + 1, channels)
    requires ch < channels && k < 2
    ensures Frame(planes, i, channels)[2 * ch + k] == planes[ch][2 * i + k]
  {
    if ch < channels - 1 {
      FrameAt(planes, i, channels - 1, ch, k);
    }
  }

  /**
   * Byte k of sample i of channel ch lands at offset (i * channels + ch) * 2 + k
   * of the packed buffer.
   */
  lemma {:induction false} PackedAt(planes: seq<seq<Byte>>, samples: nat, channels: nat, i: nat, ch: nat, k: nat)
    requires PlanesCover(planes, samples, channels)
    requires i < samples && ch < channels && k < 2
    ensures (i * channels + ch) * 2 + k < |Packed(planes, samples, channels)|
    ensures Packed(planes, samples, channels)[(i * channels + ch) * 2 + k] == planes[ch][2 * i + k]
  {
    PackedLength(planes, samples, channels);
    PackedLength(planes, samples - 1, channels);
    var prefix := Packed(planes, samples - 1, channels);
    assert |prefix| == (samples - 1) * channels * 2;
    if i == samples - 1 {
      FrameAt(planes, i, channels, ch, k);
      assert (i * channels + ch) * 2 + k == |prefix| + (2 * ch + k);
    } else {
      PackedAt(planes, samples - 1, channels, i, ch, k);
      assert (i * channels + ch) * 2 + k < |prefix|;
    }
  }

  lemma PlanesCoverFewer(planes: seq<seq<Byte>>, samples: nat, fewer: nat, channels: nat)
    requires PlanesCover(planes, samples, channels) && fewer <= samples
    ensures PlanesCover(planes, fewer, channels)
  {
  }

  /** The inner loop of s16p_2_s16: one sample of every channel, from position `d` on. */
  method CopyFrame(dst: array<Byte>, d: nat, planes: seq<seq<Byte>>, i: nat, channels: nat)
    requires PlanesCover(planes, i + 1, channels)
    requires d + 2 * channels <= dst.Length
    modifies dst
    ensures dst[..d + 2 * channels] == old(dst[..d]) + Frame(planes, i, channels)
    ensures dst[d + 2 * channels..] == old(dst[d + 2 * channels..])
  {
    ghost var before := dst[..];
    var ch := 0;
    var p := d;
    while ch < channels
      invariant 0 <= ch <= channels
      invariant p == d + 2 * ch
      invariant dst[..p] == before[..d] + Frame(planes, i, ch)
      invariant dst[p..] == before[p..]
    {
      dst[p] := planes[ch][2 * i];
      dst[p + 1] := planes[ch][2 * i + 1];
      assert dst[..p + 2] == dst[..p] + planes[ch][2 * i .. 2 * i + 2];
      p := p + 2;
      ch := ch + 1;
    }
  }

  /**
   * Interleaves the first `channels` 16-bit planes of a decoded frame into
   * `dst`, sample by sample and channel by channel, advancing the write
   * position two bytes per copy.
   */
  method S16pToS16(dst: array<Byte>, planes: seq<seq<Byte>>, samples: nat, channels: nat)
    requires PlanesCover(planes, samples, channels)
    requires samples * channels * BytesPerSample <= dst.Length
    modifies dst
    ensures |Packed(planes, samples, channels)| == samples * channels * BytesPerSample
    ensures dst[..samples * channels * BytesPerSample] == Packed(planes, samples, channels)
    ensures dst[samples * channels * BytesPerSample..] == old(dst[samples * channels * BytesPerSample..])
  {
    ghost var before := dst[..];
    var stride := 2 * channels;
    assert samples * stride == samples * channels * BytesPerSample;
    var i := 0;
    var d := 0;
    while i < samples
      invariant 0 <= i <= samples
      invariant samples * stride <= dst.Length
      invariant d == i * stride
      invariant dst[..d] == Packed(planes, i, channels)
      invariant dst[d..] == before[d..]
    {
      MulStep(i, samples, stride);
      PlanesCoverFewer(planes, samples, i + 1, channels);
      CopyFrame(dst, d, planes, i, channels);
      d := d + stride;
      i := i + 1;
    }
    assert samples * stride == samples * channels * BytesPerSample;
    PackedLength(planes, samples, channels);
  }
}
