# ffmpeg-wrap in Dafny

A model of the media-decoding glue in ffmpeg-wrap, which sits between FFmpeg and a
WebRTC-style media stack. The model has five modules:

- **FfmpegFormat** (`ffmpeg_format.dfy`). Opening a codec context and an input file. The
  audio output-format negotiation (`init_audio_resampler`): a fast path for packed or planar
  16-bit audio of at most 2 channels and 96 kHz, otherwise a resampler to at most 2 channels,
  and 44.1 kHz above 96 kHz. The planar-to-packed 16-bit repack `s16p_2_s16`, as an array
  method.
- **GangDecoderImpl** (`gang_decoder_impl.dfy`). The decoder instance (`struct gang_decoder`) as
  a class:
  - its defaults, opening and closing;
  - the frame-rate rule;
  - the resample scratch buffer that grows only when more room is needed;
  - video and audio unit decoding into freshly allocated buffers;
  - the classification of each read into end of file, error, video or audio.
- **GangDecoder** (`gang_decoder.dfy`). The older decoder revision:
  - its defaults;
  - the stream-selection loop, which keeps the last stream of each kind;
  - the I420 repack of Y, U and V rows into a zeroed `w*h*3/2` buffer;
  - frame records with status flags;
  - `free_gang_frame`.
- **GangAudioDevice** (`gang_audio_device.dfy`). The audio capture device:
  - `OnRecData` accumulates the decoder's bytes into a fixed buffer: every byte when both channels
    are kept, otherwise every other byte (even offsets for the left channel, odd ones for the right).
    It hands the buffer over each time a 10 ms chunk is full. It is proved against a pure fold
    (`FeedAll`) whose lemmas say that no byte is lost, that every delivered chunk is whole and
    that the index stays below the chunk.
  - Chunk-size derivation, idle-time arithmetic, device and channel selection, the recording
    flag and the reference-count rule.
- **GangVideoCapturer** (`gang_video_capturer.dfy`). The capturer's single I420 format and its
  start/stop state machine around the decoder's frame observer.

Every FFmpeg call, and every call into the decoder actor or the media stack, is a parameter of
the model. The model receives its return code and, where relevant, the bytes it produces (the
`*Env`, `*Probe`, `*Decode` and `*Unit` datatypes). Clock readings are parameters too.

## Model

| member | source | states |
|---|---|---|
| FfmpegFormat.OpenCodecContext | ffmpeg_format.c:19-63 | returns 0 exactly when a best stream exists, its decoder is found and opens; `*stream_idx` is written only then; a missing stream passes its (negative) code on, a missing decoder gives AVERROR(EINVAL), an open failure its code |
| FfmpegFormat.StreamAfterProbe | ffmpeg_format.c:102-114 | a stream pointer is set to the probed stream exactly when its codec context opens, otherwise it keeps its prior value |
| FfmpegFormat.OpenInputFile | ffmpeg_format.c:71-124 | an open or stream-info failure returns that code; otherwise the result is stream-not-found, with the input closed, exactly when neither a video nor an audio stream opened, and 0 with the input open otherwise |
| FfmpegFormat.OpenInputFileFromNull | ffmpeg_format.c:101-121 | starting from NULL stream pointers, success means at least one stream was found and each found stream is the probed one |
| FfmpegFormat.InitAudioResampler | ffmpeg_format.c:135-194 | the fast path (at most 2 channels, at most 96000 Hz, S16 or S16P) sets that status, creates no resampler and leaves the output channels and rate untouched; otherwise status NONE, output channels min(channels, 2), output rate 44100 above 96000 else the input rate; allocation failure gives AVERROR(ENOMEM), init failure its code and no resampler |
| FfmpegFormat.NegotiatedOutputWithinLimits | ffmpeg_format.c:153-166 | after a successful negotiation the audio delivered downstream has at most 2 channels and at most 96000 Hz |
| FfmpegFormat.PackedLength | ffmpeg_format.c:209-220 | the packed interleaving of `samples` frames of `channels` planes has samples*channels*2 bytes |
| FfmpegFormat.FrameAt | ffmpeg_format.c:212-218 | within one sample frame, byte 2*ch+k comes from byte 2*i+k of plane ch |
| FfmpegFormat.PackedAt | ffmpeg_format.c:209-220 | the packed byte at offset (i*channels+ch)*2+k is byte 2*i+k of plane ch |
| FfmpegFormat.CopyFrame | ffmpeg_format.c:212-218 | the inner loop appends one sample frame, channel by channel, at the destination offset and leaves every other byte alone |
| FfmpegFormat.S16pToS16 | ffmpeg_format.c:209-220 | the destination's first samples*channels*2 bytes become the packed interleaving of the planes; the rest of the buffer is unchanged |
| GangDecoderImpl.CDiv | gang_decoder_impl.c:53 | C's truncating `/`: the magnitude is \|a\|/\|b\| and the sign is the product of the operands' signs |
| GangDecoderImpl.FpsOf | gang_decoder_impl.c:51-57 | a zero denominator gives 10000; otherwise num/den truncated toward zero |
| GangDecoderImpl.FpsIsWholeFrames | gang_decoder_impl.c:51-57 | for a non-negative rate, fps is the number of whole frames per second: fps*den <= num < (fps+1)*den |
| GangDecoderImpl.CeilDiv | gang_decoder_impl.c:213-217 | the ceiling of x / c |
| GangDecoderImpl.RescaleUp | gang_decoder_impl.c:213-217 | av_rescale_rnd with rounding up: INT64_MIN for a non-positive divisor or a negative factor, otherwise the ceiling of a*b/c, non-negative for non-negative a |
| GangDecoderImpl.RoundUp32 | gang_decoder_impl.c:230-236 | the default alignment rounds a sample count up to the next multiple of 32 |
| GangDecoderImpl.SamplesBufferSize | gang_decoder_impl.c:278-283 | AVERROR(EINVAL) for a non-positive channel or sample count; otherwise at least channels*samples*2 bytes, and exactly that without padding |
| GangDecoderImpl.PrepareAsWritten | gang_decoder_impl.c:210-248 | as written: no reallocation when the required count fits the capacity; on success capacity >= required and it never shrinks; a failed growth returns the error and keeps the capacity, with plane 0 already gone |
| GangDecoderImpl.FailedGrowthKeepsStaleCapacity | gang_decoder_impl.c:219-245 | a failed growth leaves a capacity with no plane behind it, and the next smaller request is accepted without reallocation |
| GangDecoderImpl.PrepareScratch | gang_decoder_impl.c:210-248 | the scratch buffer grows only when more room is needed; on success capacity >= required and never shrinks; growth succeeds whenever memory is available; a failure returns a negative code and forgets the freed plane |
| GangDecoderImpl.PrepareScratchKeepsSound | gang_decoder_impl.c:219-246 | every request keeps the recorded capacity backed by a plane of at least channels*capacity*2 bytes |
| GangDecoderImpl.PrepareAgreesOnSuccess | gang_decoder_impl.c:219-246 | when memory is available the corrected and the written scratch logic agree |
| GangDecoderImpl.ResampleTailAsWritten | gang_decoder_impl.c:267-295 | as written: a conversion error is passed on; whenever the buffer size is an error, the conversion's own non-negative result is returned with no data; on success the reported count is the requested one |
| GangDecoderImpl.EmptyConversionReportsSuccess | gang_decoder_impl.c:278-288 | a conversion producing 0 samples returns success without writing `*data` |
| GangDecoderImpl.ShortConversionOverReports | gang_decoder_impl.c:278-294 | 1000 converted samples against 1024 requested give a 4000-byte buffer reported as 1024 stereo samples |
| GangDecoderImpl.ResampleTail | gang_decoder_impl.c:267-295 | success exactly when samples were produced; the buffer then holds count*channels*2 bytes for the produced count; every failure writes nothing |
| GangDecoderImpl.ResampleTailAgrees | gang_decoder_impl.c:278-294 | both tails agree on the bytes handed over; only the reported count differs |
| GangDecoderImpl.OpenAsWritten | gang_decoder_impl.c:94-153 | as written: an input-open failure is passed on; a missing audio stream is a NULL dereference; a negotiation failure is passed on; a missing video stream once negotiation succeeds is a NULL dereference |
| GangDecoderImpl.VideoOnlyInputDereferencesNull | gang_decoder_impl.c:99-113 | an input with only a video stream makes the opener read the codec of a NULL audio stream |
| GangDecoderImpl.AudioOnlyInputDereferencesNull | gang_decoder_impl.c:99-118 | an input with only 16-bit audio makes the opener read the codec of a NULL video stream |
| GangDecoderImpl.Classify | gang_decoder_impl.c:347-367 | -1 exactly when the read fails; 1 exactly for a video packet that decodes; 2 exactly for an audio packet that decodes when the video branch was not taken; 0 otherwise |
| GangDecoderImpl.ClassifyFollowsStream | gang_decoder_impl.c:355-366 | with distinct streams, a packet is classified by its stream: video data only from the video stream, audio data only from the audio stream |
| GangDecoderImpl.VideoReturn | gang_decoder_impl.c:175-192 | video decoding returns the decoder's error, -1 without a picture, 0 otherwise |
| GangDecoderImpl.Decoder.constructor | gang_decoder_impl.c:7-41 | a new decoder has no video and no audio, size, rate and channels 0, no pixel format, 2 bytes per sample, status NONE, no buffers and zero capacities |
| GangDecoderImpl.Decoder.InitVideoInfo | gang_decoder_impl.c:47-63 | copies the pixel format and size; fps is FpsOf of the stream's frame rate (num/den truncated toward zero, 10000 for a zero denominator), which for a non-negative rate is the whole frames per second |
| GangDecoderImpl.Decoder.InitAudioInfo | gang_decoder_impl.c:65-73 | copies the codec's channel count and sample rate |
| GangDecoderImpl.Decoder.NegotiateAudio | gang_decoder_impl.c:108-116 | the decoder's status, output channels and rate become the negotiation's out-parameters |
| GangDecoderImpl.Decoder.InitVideoDecodeBuffer | gang_decoder_impl.c:76-91 | a failed image allocation returns -1 and keeps the buffer; otherwise a fresh buffer of the returned size is recorded |
| GangDecoderImpl.Decoder.OpenAudio | gang_decoder_impl.c:108-133 | negotiation, then the codec's own channels and rate when no resampler is needed; a resampler exists exactly on success with status NONE |
| GangDecoderImpl.Decoder.OpenVideo | gang_decoder_impl.c:118-141 | video info (size, pixel format, fps equal to FpsOf of the frame rate), then the image buffer of the allocator's size, or -1 |
| GangDecoderImpl.Decoder.OpenDecoders | gang_decoder_impl.c:108-149 | the steps after the input opened, run only for the streams present; success leaves a decoder ready for decoding with the availability flags set from the streams, the video stream's size, format and FpsOf frame rate, and the audio channels, rate and status of the negotiation |
| GangDecoderImpl.Decoder.OpenPicture | gang_decoder_impl.c:118-149 | after audio: video info (size, format, FpsOf frame rate) and an image buffer only for a video stream (-1 when it cannot be allocated), then the frame (ENOMEM when missing); success sets the availability flags from the streams |
| GangDecoderImpl.Decoder.AllocateFrame | gang_decoder_impl.c:143-149 | ENOMEM and no frame when allocation fails; otherwise a frame, 0, and no_video/no_audio set exactly when the stream is missing |
| GangDecoderImpl.Decoder.Open | gang_decoder_impl.c:94-153 | an input failure is returned as is; success leaves a ready decoder with no_video/no_audio true exactly for the missing streams, the video stream's size, format and FpsOf frame rate, and the negotiated audio parameters; with both streams present the result equals the written opener's |
| GangDecoderImpl.Decoder.Close | gang_decoder_impl.c:155-172 | closes the input, frees the image buffer, resampler, scratch buffer and frame, and drops both streams |
| GangDecoderImpl.Decoder.CloseInput | gang_decoder_impl.c:155-170 | the input, image buffer, resampler and frame are released and both streams dropped |
| GangDecoderImpl.Decoder.FreeScratch | gang_decoder_impl.c:166-168 | the scratch pointer table and plane 0 are freed (and the capacity forgotten) |
| GangDecoderImpl.Decoder.DecodeNextVideo | gang_decoder_impl.c:175-208 | the return is the decode outcome; on success a fresh buffer holds the decoded image and the size is the image buffer size; on failure nothing is handed out |
| GangDecoderImpl.Decoder.GrowScratch | gang_decoder_impl.c:219-246 | the scratch state becomes the corrected growth's result |
| GangDecoderImpl.Decoder.PrepareResampleBuffer | gang_decoder_impl.c:210-248 | the required count is ceil(nb_samples*out_rate/in_rate); the scratch buffer follows the corrected growth rule; success leaves room for the required count |
| GangDecoderImpl.Decoder.DeliverConverted | gang_decoder_impl.c:290-294 | the converted bytes are copied into a fresh buffer |
| GangDecoderImpl.Decoder.ResampleReturn | gang_decoder_impl.c:250-296 | corrected (Findings rows 3-5): without a resampler the result is -1; every result is 0 or negative; success needs a resampler, a positive channel count and a conversion that yields samples |
| GangDecoderImpl.Decoder.ResampleAndCopy | gang_decoder_impl.c:250-296 | corrected (Findings rows 3-5): on success a fresh buffer holds the converted bytes, count*channels*2 of them, for the produced count; on failure nothing is handed out |
| GangDecoderImpl.Decoder.AudioReturn | gang_decoder_impl.c:299-342 | corrected on the resampling path (Findings rows 4-5): a decode error is passed on; success needs a decoded frame with a byte count nb_samples*2*channels of at least 1; status NONE defers to the corrected resampling |
| GangDecoderImpl.Decoder.DecodeNextAudio | gang_decoder_impl.c:299-342 | corrected on the resampling path (Findings rows 4-5): on success the buffer holds count*channels*2 bytes: S16P gives the packed interleaving of the planes, S16 a copy of plane 0, NONE the converted bytes; the count is the frame's sample count on the direct paths and the produced count when resampling |
| GangDecoderImpl.Decoder.DecodeNextFrame | gang_decoder_impl.c:347-367 | corrected on the resampling path (Findings rows 4-5): the returned kind is the classification of the read and both decode outcomes; video data is the decoded image; audio data is exactly what the audio decoding produced (interleaved planes, plane 0, or converted bytes); end of file and error hand out nothing |
| GangDecoderImpl.Decoder.DecodeAudioPacket | gang_decoder_impl.c:359-366 | audio data exactly when the packet is from the audio stream and audio decoding succeeds, and then the bytes that decoding produced; otherwise the error kind with nothing handed out |
| GangDecoder.LastOfKind | gang_decoder.c:112-123 | the selection is either the prior value or the index of a stream of the kind |
| GangDecoder.LastOfKindIsLast | gang_decoder.c:112-123 | no stream of the kind follows the selected one; the prior value survives exactly when no stream of the kind exists |
| GangDecoder.LastOfKindIgnoresOthers | gang_decoder.c:112-123 | a stream of another kind does not change the selection |
| GangDecoder.RowsLength | gang_decoder.c:169-173 | n rows of len bytes occupy n*len bytes |
| GangDecoder.RowsAt | gang_decoder.c:169-173 | byte j of row i lands at offset i*len+j |
| GangDecoder.I420BufferSize | gang_decoder.c:161 | the buffer has h*w*3/2 bytes, with C's truncating division |
| GangDecoder.ChromaFits | gang_decoder.c:174-183 | the two chroma planes of (h/2)*(w/2) bytes fit in half the luma size |
| GangDecoder.I420Fits | gang_decoder.c:161-183 | the repacked picture has h*w + 2*(h/2)*(w/2) bytes, which fit in the h*w*3/2 buffer |
| GangDecoder.I420LumaAt | gang_decoder.c:169-173 | Y row i lands at offset i*w |
| GangDecoder.I420UAt | gang_decoder.c:174-178 | U row i lands at offset h*w + i*(w/2) |
| GangDecoder.I420VAt | gang_decoder.c:179-183 | V row i lands at offset h*w + (h/2)*(w/2) + i*(w/2) |
| GangDecoder.CopyRows | gang_decoder.c:169-173 | each row loop appends its rows at offset `a`, which advances by the row width, and leaves the rest of the buffer alone |
| GangDecoder.CopyPlanes | gang_decoder.c:169-183 | the three row loops write exactly the repacked picture at the start of the buffer |
| GangDecoder.RepackI420 | gang_decoder.c:161-183 | a fresh zeroed buffer of h*w*3/2 bytes whose prefix is the repacked picture and whose tail stays zero |
| GangDecoder.FailedFrame | gang_decoder.c:189-197 | a failed decode yields no data, size 0, pts 0, status 0 and the stream's kind |
| GangDecoder.FreeFrameAsWritten | gang_decoder.c:227-233 | as written: the data is freed only when non-null, but a NULL record is dereferenced first |
| GangDecoder.FreeNullFaults | gang_decoder.c:228-230 | freeing NULL faults |
| GangDecoder.FreeFrame | gang_decoder.c:227-233 | a NULL record is a no-op; otherwise the data is freed only when non-null and the record is freed |
| GangDecoder.FreeFrameAgrees | gang_decoder.c:227-233 | both versions agree on every non-NULL record |
| GangDecoder.LegacyDecoder.constructor | gang_decoder.c:14-28 | best size 0x0, best fps 20, both stream indices -1 |
| GangDecoder.LegacyDecoder.SelectStreams | gang_decoder.c:112-123 | the loop leaves each index at the last stream of its kind |
| GangDecoder.LegacyDecoder.StartDecode | gang_decoder.c:88-143 | -1 exactly when the input cannot be opened or probed; 1 exactly when every selected stream's codec opens; 0 otherwise; the selection is the last stream of each kind |
| GangDecoder.LegacyDecoder.DecodeNextFrame | gang_decoder.c:145-226 | a decoded video packet gives a record with status 1, the packet's size and pts, and the I420 repack; a decoded audio packet a record with status 1 and a copy of the packet size in bytes; failures the failed record of their kind; other packets an unwritten record |
| GangAudioDevice.ChunkEmptyIff | gang_audio_device.cc:617-624 | for a device with channels, the 10 ms chunk is empty exactly when the rate is below 100 Hz |
| GangAudioDevice.NegotiatedChunkFits | gang_audio_device.cc:617-624 | every format the decoder negotiates has a 10 ms chunk of at most 3840 bytes |
| GangAudioDevice.NbSrcBytes | gang_audio_device.cc:681 | the source byte count is the 32-bit product nSamples*bytesPerSample |
| GangAudioDevice.EvenByteCount | gang_audio_device.cc:681 | with an even bytesPerSample the source byte count is even |
| GangAudioDevice.FirstSourceByte | gang_audio_device.cc:689-691 | the copy starts one byte in exactly for the right channel, else at byte 0 |
| GangAudioDevice.SourceStride | gang_audio_device.cc:694-699 | the source advances one byte per copied byte exactly when both channels are kept, else two |
| GangAudioDevice.PickedChannelBytes | gang_audio_device.cc:689-705 | every byte is copied when both channels are kept; otherwise only even source offsets for the left channel and only odd ones for the right |
| GangAudioDevice.PickedAt | gang_audio_device.cc:689-705 | the k-th copied byte is source byte start + k*stride, below the source byte count |
| GangAudioDevice.PickedLength | gang_audio_device.cc:689-705 | exactly the offsets below the source byte count are copied: ceil((count - start)/stride) bytes |
| GangAudioDevice.FeedAllConserves | gang_audio_device.cc:693-705 | no byte is lost or reordered: delivered chunks followed by the pending bytes are the old ones followed by the input |
| GangAudioDevice.FeedAllChunks | gang_audio_device.cc:693-705 | with a non-empty chunk, the old deliveries stay, each new one has exactly chunk bytes, fewer than chunk bytes stay pending, and pending + chunk*deliveries counts every byte |
| GangAudioDevice.ZeroChunkNeverDelivers | gang_audio_device.cc:700-703 | with an empty chunk nothing is delivered and every byte stays pending |
| GangAudioDevice.SubHundredRateOverruns | gang_audio_device.cc:679-706 | a 50 Hz mono device passes the written guard, and capacity+1 samples leave more than capacity bytes pending |
| GangAudioDevice.AcceptsAsWritten | gang_audio_device.cc:685-687 | as written: data is processed exactly when the rate, the source byte count and the channel count are all non-zero |
| GangAudioDevice.Accepts | gang_audio_device.cc:685-687 | corrected guard: it accepts only what the written one does, and only with a non-empty 10 ms chunk |
| GangAudioDevice.AcceptsRefusesOnlySubHundred | gang_audio_device.cc:685-687 | with the device's own chunk, the corrected guard differs from the written one exactly by refusing rates below 100 Hz |
| GangAudioDevice.OnRecDataDeliversWholeChunks | gang_audio_device.cc:679-706 | one call delivers whole chunks only, keeps fewer than a chunk pending, and conserves the picked bytes |
| GangAudioDevice.AudioDevice.constructor | gang_audio_device.cc:35-61 | reference count 0, not recording, not initialised, zeroed buffer, index, sizes, rate, channels and device index 0, both channels |
| GangAudioDevice.AudioDevice.Create | gang_audio_device.cc:82-92 | null without a decoder; otherwise a fresh, initialised device that is not recording, with a reference count of 1 for the returned handle |
| GangAudioDevice.AudioDevice.Initialize | gang_audio_device.cc:610-628 | bytesPerSample = 2*channels, samples per 10 ms = rate/100, chunk bytes = their product, initialised, last process time = now |
| GangAudioDevice.AudioDevice.TimeUntilNextProcess | gang_audio_device.cc:94-106 | 0 when the clock went backwards or more than 1000 ms elapsed, else 1000 - elapsed; always within [0, 1000] |
| GangAudioDevice.AudioDevice.Process | gang_audio_device.cc:108-112 | records the time, so the next process is a full 1000 ms away |
| GangAudioDevice.AudioDevice.SetRecordingDevice | gang_audio_device.cc:206-213 | only device 0 is accepted and recorded; any other index returns -1 and changes nothing |
| GangAudioDevice.AudioDevice.RecordingIsAvailable | gang_audio_device.cc:236-244 | available with 0 exactly when the recorded device is 0, else unavailable with -1 |
| GangAudioDevice.AudioDevice.StartRecording | gang_audio_device.cc:272-281 | -1 and no change before initialisation; otherwise recording, index 0 and registered as observer |
| GangAudioDevice.AudioDevice.StopRecording | gang_audio_device.cc:284-292 | detaches from the decoder and clears the recording flag |
| GangAudioDevice.AudioDevice.Recording | gang_audio_device.cc:294-298 | reports the recording flag that StartRecording sets and StopRecording clears |
| GangAudioDevice.AudioDevice.SetRecordingChannel | gang_audio_device.cc:490-508 | -1 for a mono device; otherwise 4 bytes per sample for both channels, 2 for one, and the channel is recorded |
| GangAudioDevice.AudioDevice.AddRef | gang_audio_device.cc:720-723 | increments the count and returns the new value |
| GangAudioDevice.AudioDevice.Release | gang_audio_device.cc:726-736 | decrements the count and returns it; recording stops when it reaches the stop count; the device is deleted at 0 |
| GangAudioDevice.AudioDevice.DeliverRecordedData | gang_audio_device.cc:645-663 | the full chunk is handed to the audio callback |
| GangAudioDevice.AudioDevice.StoreByte | gang_audio_device.cc:693-704 | one byte is stored at the index; a full chunk is delivered and the index reset |
| GangAudioDevice.AudioDevice.OnRecData | gang_audio_device.cc:679-706 | nothing changes when the rate, the source byte count, the channel count or the chunk is 0; otherwise the bytes the channel picks (right starts at offset 1, one byte skipped per byte unless both) are fed into 10 ms chunks, and the index stays below the chunk |
| GangVideoCapturer.Capturer.constructor | gangvideocapturer.cc:7-12 | start time 0, not capturing |
| GangVideoCapturer.Capturer.Initialize | gangvideocapturer.cc:36-68 | the frame is I420 of the decoder's size with 1x1 pixels and a fresh buffer of the frame size; exactly one supported format, I420 of that size; the video adapter is off |
| GangVideoCapturer.Capturer.Create | gangvideocapturer.cc:23-34 | null without a decoder; otherwise an initialised capturer that is not capturing |
| GangVideoCapturer.Capturer.IsRunning | gangvideocapturer.cc:105-107 | true exactly when the decoder handle is present and reports running |
| GangVideoCapturer.Capturer.Start | gangvideocapturer.cc:70-86 | fails and changes nothing while capturing; otherwise records format and start time, and runs exactly when the decoder accepts the observer, with capture_ still false when it does not |
| GangVideoCapturer.Capturer.StopCapture | gangvideocapturer.cc:88-96 | a no-op when not capturing; otherwise clears capture_, and drops the format and detaches the observer only if the decoder is running |
| GangVideoCapturer.Capturer.Stop | gangvideocapturer.cc:98-103 | the same as the unlocked stop |
| GangVideoCapturer.Capturer.OnGangFrame | gangvideocapturer.cc:109-114 | the frame is stamped with the time and the time elapsed since Start |
| GangVideoCapturer.Capturer.GetPreferredFourccs | gangvideocapturer.cc:116-123 | false for a null list; otherwise I420, the first supported format's code, is appended and the result is true |

## Left out

- FFmpeg, the media stack and the decoder actor are not modelled. Their results are parameters: return codes, stream layouts, decoded planes, converted bytes and image sizes. Where a method relies on what a library call promises (an image of `video_dst_bufsize` bytes, a converted buffer of count*channels*2 bytes, a frame whose planes hold its samples), that promise is a `requires`.
- Logging, `get_error_text`, `av_register_all`/`avformat_network_init` and `av_init_packet` are not modelled: they have no effect the model can observe.
- `init_input_frame` is not a separate member: its outcome is the `frameAllocOk` parameter of opening.
- `init_gang_decoder` (gang_decoder.c:30-86) is not modelled. It repeats the probing of `start_gang_decode` on a local context and keeps only the best width and height.
- `stop_gang_decode`, `free_gang_decode` and `free_gang_decoder` only free memory and are not modelled.
- C `int` width is not modelled: sizes and counts are unbounded integers. Only the 32-bit source byte count of `OnRecData` wraps, through `NbSrcBytes`.
- Line sizes and alignment padding of `av_image_alloc`/`av_image_copy` and `av_samples_alloc` are not modelled. Each image or plane is its bytes.
- GangDecoderImpl.Decoder.Open requires a decoder that is new or closed, and audio parameters with a non-negative channel count. The source does not check either.
- GangDecoderImpl.Decoder.DecodeNextFrame, DecodeNextAudio, AudioReturn, ResampleReturn and ResampleAndCopy run the corrected resampling tail and scratch growth (Findings rows 3-5), not the code as written. Two outcomes differ from the source. A conversion that yields 0 samples makes the model return the error kind (0), where the source returns audio data (2) with `*data` unwritten. On the resampling path the model reports the produced sample count, where the source reports the requested `audio_dst_nb_samples`. The as-written behaviour is modelled by ResampleTailAsWritten and PrepareAsWritten.
- GangDecoderImpl.Decoder.Close sets the image buffer to null. The source frees it and leaves the dangling pointer in place.
- GangDecoderImpl.Decoder.Close also resets the scratch capacity to 0. The source frees the scratch buffer but keeps `audio_dst_max_nb_samples`, which only matters for a decoder opened again after closing.
- GangDecoder.LegacyDecoder.DecodeNextFrame models the audio copy as `pkt.size` bytes read from the frame's pointer table, as written. Whether that table holds that many bytes is a `requires`. This is probably a defect: the decoded samples of plane 0, sized by the decoded frame, are evidently what was meant, but the older decoder has no corrected counterpart in this model.
- GangAudioDevice.AudioDevice.OnRecData keeps one channel byte by byte, as written: it copies every other byte of the first nSamples*2 source bytes. In interleaved 16-bit stereo that takes the low bytes (left) or high bytes (right) of the samples of both channels from the first half of the buffer, not one channel's samples. The sample-wise pick (2 bytes kept out of every 4) that keeping one channel evidently means is not modelled; PickedChannelBytes states what is copied instead.
- Threading and locking are not modelled: `OnAudioFrame`'s posting to the worker thread, `OnMessage`, the critical sections and `RegisterAudioCallback`.
- GangAudioDevice.AudioDevice.DeliverRecordedData records each chunk handed over. It does not model the callback's other arguments or its microphone-level result.
- The size of the audio device's buffer is a constructor parameter, since the header defining it is not part of this model. GangAudioDevice.AudioDevice.Initialize requires that the 10 ms chunk fits it.
- GangAudioDevice.AudioDevice.Initialize requires a device that is not yet initialised. `Create` is its only caller and calls it on a fresh device.
- The audio device's destructor and the trivial stubs that only return constants are not modelled.
- GangVideoCapturer.Capturer.Initialize takes the frame interval and the frame byte size as parameters. `FpsToInterval` and `VideoFrame::SizeOf` belong to the media stack.
- The capturer's destructor and `SetCaptureFormat`'s effect inside the media stack are not modelled; only the recorded capture format is.

## Findings

| source | as written | input that shows it | evidently intended | confidence | as-written member | corrected member |
|---|---|---|---|---|---|---|
| gang_decoder_impl.c:99-118 | after `open_input_file` succeeds, the audio stream's codec and then the video stream's codec are read unconditionally | an input with a video stream and no audio stream, which `open_input_file` accepts | negotiate audio only when there is an audio stream, and read video info only when there is a video stream | medium, not executed | GangDecoderImpl.OpenAsWritten | GangDecoderImpl.Decoder.Open |
| gang_audio_device.cc:684-704 | the guard accepts a non-zero rate below 100 Hz; the chunk is then 0 bytes, so the index never equals it and is never reset | a mono stream at 50 Hz and more samples than the buffer holds | refuse data, or never reach the copy, when the 10 ms chunk is empty | medium, not executed | GangAudioDevice.SubHundredRateOverruns | GangAudioDevice.AudioDevice.OnRecData |
| gang_decoder_impl.c:219-245 | plane 0 is freed before reallocating, but a failed reallocation keeps `audio_dst_max_nb_samples` | a capacity of 10 samples, a request for 20 that fails, then a request for 5 | reset the capacity when the plane is gone | medium, not executed | GangDecoderImpl.FailedGrowthKeepsStaleCapacity | GangDecoderImpl.PrepareScratch |
| gang_decoder_impl.c:284-287 | a buffer-size error returns `ret`, the conversion's non-negative sample count | a conversion that produces 0 samples (the resampler buffering input) | return the size error | medium, not executed | GangDecoderImpl.EmptyConversionReportsSuccess | GangDecoderImpl.ResampleTail |
| gang_decoder_impl.c:290-294 | the reported sample count is the requested `audio_dst_nb_samples`, not the count the conversion produced | 1000 samples converted for 1024 requested, stereo | report the converted count, which matches the bytes handed over | medium, not executed | GangDecoderImpl.ShortConversionOverReports | GangDecoderImpl.ResampleTail |
| gang_decoder.c:227-233 | the record's `data` field is read before the record is tested for NULL | `free_gang_frame(NULL)` | test the record for NULL first | high, not executed | GangDecoder.FreeNullFaults | GangDecoder.FreeFrame |
