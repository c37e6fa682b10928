/**
 * The audio capture device handed to the real-time media stack: it collects the
 * decoder's interleaved 16-bit samples into a fixed buffer and hands the buffer
 * over each time a 10 ms chunk is complete.
 *
 * The byte-by-byte accumulation of OnRecData is specified by the pure fold
 * `FeedAll` of `Feed` over the source bytes the selected channel picks (`Picked`);
 * the lemmas below state what that fold delivers.
 */
module GangAudioDevice {
  import opened Common

  /** Longest time, in milliseconds, the device may stay idle between two Process calls. */
  const MaxIdleTimeProcessMs := 1000

  /** Source byte counts are computed in 32-bit unsigned arithmetic. */
  const U32 := 0x1_0000_0000

  /** The 10 ms chunk of the largest format the decoder negotiates: 96 kHz stereo. */
  const LargestChunkBytes := 3840

  datatype ChannelType = ChannelBoth | ChannelLeft | ChannelRight

  // ---------------------------------------------------------------------------
  // Chunk arithmetic
  // ---------------------------------------------------------------------------

  /** Bytes per interleaved 16-bit sample frame of `channels` channels. */
  function FrameBytes(channels: nat): nat
  {
    2 * channels
  }

  /** Bytes of one 10 ms chunk: rate/100 sample frames. */
  function ChunkBytes(rate: nat, channels: nat): nat
  {
    (rate / 100) * FrameBytes(channels)
  }

  /** A chunk is empty exactly when the rate is below 100 Hz (for a device with channels). */
  lemma ChunkEmptyIff(rate: nat, channels: nat)
    requires channels > 0
    ensures ChunkBytes(rate, channels) == 0 <==> rate < 100
  {
    if rate >= 100 {
      MulMono(1, rate / 100, FrameBytes(channels));
    }
  }

  /** Every format the decoder can deliver (at most 2 channels, at most 96 kHz) fits the largest chunk. */
  lemma NegotiatedChunkFits(rate: nat, channels: nat)
    requires channels <= 2 && rate <= 96000
    ensures ChunkBytes(rate, channels) <= LargestChunkBytes
  {
    MulMono(rate / 100, 960, FrameBytes(channels));
    assert 960 * FrameBytes(channels) <= 960 * 4;
  }

  /** The number of source bytes of `nSamples` frames of `bytesPerSample`, as a 32-bit product. */
  function NbSrcBytes(nSamples: nat, bytesPerSample: nat): (n: nat)
    ensures n < U32
    ensures nSamples * bytesPerSample < U32 ==> n == nSamples * bytesPerSample
  {
    (nSamples * bytesPerSample) % U32
  }

  lemma EvenByteCount(nSamples: nat, half: nat)
    ensures NbSrcBytes(nSamples, 2 * half) % 2 == 0
  {
    var p := nSamples * (2 * half);
    assert p == 2 * (nSamples * half);
    var q := p / U32;
    assert p == q * U32 + p % U32;
    assert q * U32 == 2 * (q * (U32 / 2));
  }

  /** The source offset of the first copied byte: the right channel starts one byte in. */
  function FirstSourceByte(channel: ChannelType): (first: nat)
    ensures first <= 1 && (first == 1 <==> channel == ChannelRight)
  {
    if channel == ChannelRight then 1 else 0
  }

  /** How far the source offset advances per copied byte: one extra byte unless both channels are kept. */
  function SourceStride(channel: ChannelType): (step: nat)
    ensures 1 <= step <= 2 && (step == 1 <==> channel == ChannelBoth)
  {
    if channel == ChannelBoth then 1 else 2
  }

  // ---------------------------------------------------------------------------
  // The bytes OnRecData picks from its source
  // ---------------------------------------------------------------------------

  /** The bytes of `data` at offsets pos, pos+step, pos+2*step, ... below `end`. */
  function Picked(data: seq<Byte>, pos: nat, step: nat, end: nat): seq<Byte>
    requires step > 0 && end <= |data|
    decreases end - pos
  {
    if pos >= end then [] else [data[pos]] + Picked(data, pos + step, step, end)
  }

  /** The k-th picked byte is the source byte at offset pos + k*step, and that offset lies below `end`. */
  lemma {:induction false} PickedAt(data: seq<Byte>, pos: nat, step: nat, end: nat, k: nat)
    requires step > 0 && end <= |data|
    requires k < |Picked(data, pos, step, end)|
    ensures pos + k * step < end
    ensures Picked(data, pos, step, end)[k] == data[pos + k * step]
    decreases end - pos
  {
    if k > 0 {
      PickedAt(data, pos + step, step, end, k - 1);
      assert (k - 1) * step + step == k * step;
    }
  }

  /** Exactly the offsets below `end` are picked: their count is the ceiling of (end - pos) / step. */
  lemma {:induction false} PickedLength(data: seq<Byte>, pos: nat, step: nat, end: nat)
    requires step > 0 && end <= |data|
    ensures pos >= end ==> |Picked(data, pos, step, end)| == 0
    ensures pos < end ==> (|Picked(data, pos, step, end)| - 1) * step < end - pos <= |Picked(data, pos, step, end)| * step
    decreases end - pos
  {
    if pos < end {
      var n := |Picked(data, pos + step, step, end)|;
      PickedLength(data, pos + step, step, end);
      assert |Picked(data, pos, step, end)| == n + 1;
      MulSucc(n, step);
    }
  }

  lemma MulSucc(n: int, step: int)
    ensures (n + 1) * step == n * step + step
    ensures (n - 1) * step == n * step - step
  {
  }

  // ---------------------------------------------------------------------------
  // Accumulation into 10 ms chunks
  /**
   * Keeping one channel copies every other source byte: the odd offsets for the
   * right channel, the even ones for the left; keeping both copies every byte.
   */
  lemma {:induction false} PickedChannelBytes(data: seq<Byte>, channel: ChannelType, end: nat, k: nat)
    requires end <= |data|
    requires k < |Picked(data, FirstSourceByte(channel), SourceStride(channel), end)|
    ensures var off := FirstSourceByte(channel) + k * SourceStride(channel);
            && off < end
            && Picked(data, FirstSourceByte(channel), SourceStride(channel), end)[k] == data[off]
            && (channel == ChannelBoth ==> off == k)
            && (channel == ChannelLeft ==> off % 2 == 0)
            && (channel == ChannelRight ==> off % 2 == 1)
  {
    PickedAt(data, FirstSourceByte(channel), SourceStride(channel), end, k);
  }

  // ---------------------------------------------------------------------------

  /** What the accumulation buffer has produced: the chunks delivered so far and the bytes waiting. */
  datatype Recorder = Recorder(delivered: seq<seq<Byte>>, pending: seq<Byte>)

  /** All delivered chunks, concatenated. */
  function Flatten(chunks: seq<seq<Byte>>): seq<Byte>
  {
    if chunks == [] then [] else Flatten(chunks[..|chunks| - 1]) + chunks[|chunks| - 1]
  }

  /** One byte stored; when the buffer reaches `chunk` bytes it is delivered and emptied. */
  function Feed(r: Recorder, b: Byte, chunk: nat): Recorder
  {
    if |r.pending| + 1 == chunk then Recorder(r.delivered + [r.pending + [b]], [])
    else Recorder(r.delivered, r.pending + [b])
  }

  /** `bytes` stored one after the other. */
  function FeedAll(r: Recorder, bytes: seq<Byte>, chunk: nat): Recorder
    decreases |bytes|
  {
    if bytes == [] then r else FeedAll(Feed(r, bytes[0], chunk), bytes[1..], chunk)
  }

  lemma FeedAllCons(r: Recorder, b: Byte, rest: seq<Byte>, chunk: nat)
    ensures FeedAll(r, [b] + rest, chunk) == FeedAll(Feed(r, b, chunk), rest, chunk)
  {
    assert ([b] + rest)[1..] == rest;
  }

  /** No byte is lost or reordered: what was delivered and what waits is the old content followed by `bytes`. */
  lemma {:induction false} FeedAllConserves(r: Recorder, bytes: seq<Byte>, chunk: nat)
    ensures Flatten(FeedAll(r, bytes, chunk).delivered) + FeedAll(r, bytes, chunk).pending
         == Flatten(r.delivered) + r.pending + bytes
    decreases |bytes|
  {
    if bytes != [] {
      var r1 := Feed(r, bytes[0], chunk);
      FeedAllConserves(r1, bytes[1..], chunk);
      if |r.pending| + 1 == chunk {
        var ds := r.delivered + [r.pending + [bytes[0]]];
        assert ds[..|ds| - 1] == r.delivered;
        assert Flatten(r1.delivered) + r1.pending == Flatten(r.delivered) + r.pending + [bytes[0]];
      }
      assert bytes == [bytes[0]] + bytes[1..];
    }
  }

  /**
   * With a non-empty chunk, the old chunks stay as they were, every new chunk holds
   * exactly `chunk` bytes, fewer than `chunk` bytes stay pending, and every byte is
   * counted once: pending + chunk * (new deliveries) == old pending + |bytes|.
   */
  lemma {:induction false} FeedAllChunks(r: Recorder, bytes: seq<Byte>, chunk: nat)
    requires 0 < chunk && |r.pending| < chunk
    ensures var r' := FeedAll(r, bytes, chunk);
      && |r'.pending| < chunk
      && |r.delivered| <= |r'.delivered|
      && r'.delivered[..|r.delivered|] == r.delivered
      && (forall i | |r.delivered| <= i < |r'.delivered| :: |r'.delivered[i]| == chunk)
      && |r'.pending| + chunk * (|r'.delivered| - |r.delivered|) == |r.pending| + |bytes|
    decreases |bytes|
  {
    if bytes != [] {
      var r1 := Feed(r, bytes[0], chunk);
      FeedAllChunks(r1, bytes[1..], chunk);
      var r' := FeedAll(r1, bytes[1..], chunk);
      assert r'.delivered[..|r1.delivered|] == r1.delivered;
      assert r1.delivered[..|r.delivered|] == r.delivered;
      assert r'.delivered[..|r.delivered|] == r'.delivered[..|r1.delivered|][..|r.delivered|];
      if |r.pending| + 1 == chunk {
        assert r'.delivered[|r.delivered|] == r1.delivered[|r.delivered|];
        var k := |r'.delivered| - |r1.delivered|;
        assert chunk * (k + 1) == chunk * k + chunk;
      }
    }
  }

  /** With an empty chunk nothing is ever delivered: every byte stays pending, without bound. */
  lemma {:induction false} ZeroChunkNeverDelivers(r: Recorder, bytes: seq<Byte>)
    ensures FeedAll(r, bytes, 0) == Recorder(r.delivered, r.pending + bytes)
    decreases |bytes|
  {
    if bytes != [] {
      ZeroChunkNeverDelivers(Feed(r, bytes[0], 0), bytes[1..]);
      assert r.pending + [bytes[0]] + bytes[1..] == r.pending + bytes;
    }
  }

  // ---------------------------------------------------------------------------
  // The guard of OnRecData
  // ---------------------------------------------------------------------------

  /** The guard as written: the rate, the source byte count and the channel count must be non-zero. */
  predicate AcceptsAsWritten(rate: nat, nbSrc: nat, channels: nat): (ok: bool)
    ensures ok <==> rate > 0 && nbSrc > 0 && channels > 0
  {
    rate != 0 && nbSrc != 0 && channels != 0
  }

  /**
   * A mono device at 50 Hz gets an empty 10 ms chunk, yet the guard as written lets
   * data through: `capacity + 1` samples then leave 2 * (capacity + 1) bytes pending,
   * so the buffer index runs past a buffer of `capacity` bytes.
   */
  lemma SubHundredRateOverruns(capacity: nat, data: seq<Byte>)
    requires |data| == 2 * (capacity + 1) && |data| < U32
    ensures ChunkBytes(50, 1) == 0
    ensures AcceptsAsWritten(50, NbSrcBytes(capacity + 1, FrameBytes(1)), 1)
    ensures |FeedAll(Recorder([], []), Picked(data, FirstSourceByte(ChannelBoth), SourceStride(ChannelBoth), NbSrcBytes(capacity + 1, FrameBytes(1))), ChunkBytes(50, 1)).pending| > capacity
  {
    var nb := NbSrcBytes(capacity + 1, FrameBytes(1));
    assert nb == |data|;
    var p := Picked(data, 0, 1, nb);
    PickedLength(data, 0, 1, nb);
    ZeroChunkNeverDelivers(Recorder([], []), p);
  }

  /** The corrected guard also refuses an empty chunk, so the buffer index always stays below the chunk. */
  predicate Accepts(rate: nat, nbSrc: nat, channels: nat, chunk: nat): (ok: bool)
    ensures ok ==> AcceptsAsWritten(rate, nbSrc, channels) && chunk > 0
  {
    AcceptsAsWritten(rate, nbSrc, channels) && chunk != 0
  }

  /** With the device's own 10 ms chunk, the corrected guard refuses exactly the sub-100 Hz rates the written one lets through. */
  lemma {:induction false} AcceptsRefusesOnlySubHundred(rate: nat, nbSrc: nat, channels: nat)
    ensures Accepts(rate, nbSrc, channels, ChunkBytes(rate, channels)) <==> AcceptsAsWritten(rate, nbSrc, channels) && rate >= 100
  {
    if channels > 0 {
      ChunkEmptyIff(rate, channels);
    }
  }

  // ---------------------------------------------------------------------------
  // The device
  // ---------------------------------------------------------------------------

  class AudioDevice {
    var refCount: int
    const stopRefCount: int
    var deleted: bool
    var lastProcessTimeMs: nat
    var recording: bool
    var recIsInitialized: bool
    /** Whether the device is registered as the decoder's audio frame observer. */
    var observerAttached: bool
    const recBuff: array<Byte>
    var recBuffIndex: nat
    var lenBytesPer10ms: nat
    var nbSamples10ms: nat
    var recSampleRate: nat
    var recChannels: nat
    var recChannel: ChannelType
    var recBytesPerSample: nat
    var recordIndex: nat
    /** The chunks handed to the audio callback so far. */
    var delivered: seq<seq<Byte>>

    ghost predicate Valid()
      reads this
    {
      && lenBytesPer10ms <= recBuff.Length
      && (lenBytesPer10ms == 0 ==> recBuffIndex == 0)
      && (lenBytesPer10ms > 0 ==> recBuffIndex < lenBytesPer10ms)
      && recBytesPerSample % 2 == 0
      && (!recIsInitialized ==> lenBytesPer10ms == 0)
    }

    /** The accumulation state: delivered chunks and the bytes filled in so far. */
    ghost function Recorded(): Recorder
      reads this, recBuff
      requires recBuffIndex <= recBuff.Length
    {
      Recorder(delivered, recBuff[..recBuffIndex])
    }

    /** A device over a zeroed buffer of `capacity` bytes, neither initialised nor recording. */
    constructor(stopRefCount: int, capacity: nat)
      ensures Valid()
      ensures this.stopRefCount == stopRefCount && refCount == 0 && !deleted
      ensures lastProcessTimeMs == 0 && !recording && !recIsInitialized && !observerAttached
      ensures fresh(recBuff) && recBuff.Length == capacity && (forall i | 0 <= i < capacity :: recBuff[i] == 0)
      ensures recBuffIndex == 0 && lenBytesPer10ms == 0 && nbSamples10ms == 0
      ensures recSampleRate == 0 && recChannels == 0 && recChannel == ChannelBoth && recBytesPerSample == 0
      ensures recordIndex == 0 && delivered == []
    {
      refCount := 0;
      this.stopRefCount := stopRefCount;
      deleted := false;
      lastProcessTimeMs := 0;
      recording := false;
      recIsInitialized := false;
      observerAttached := false;
      recBuff := new Byte[capacity](_ => 0);
      recBuffIndex := 0;
      lenBytesPer10ms := 0;
      nbSamples10ms := 0;
      recSampleRate := 0;
      recChannels := 0;
      recChannel := ChannelBoth;
      recBytesPerSample := 0;
      recordIndex := 0;
      delivered := [];
    }

    /**
     * Takes the decoder's output rate and channel count at time `now` and derives the
     * chunk sizes: 2 bytes per channel, rate/100 frames, their product in bytes.
     */
    method Initialize(rate: nat, channels: nat, now: nat)
      requires Valid() && !recIsInitialized
      requires ChunkBytes(rate, channels) <= recBuff.Length
      modifies this`lastProcessTimeMs, this`recSampleRate, this`recChannels, this`recBytesPerSample
      modifies this`nbSamples10ms, this`lenBytesPer10ms, this`recIsInitialized
      ensures Valid()
      ensures lastProcessTimeMs == now && recSampleRate == rate && recChannels == channels
      ensures recBytesPerSample == FrameBytes(channels)
      ensures nbSamples10ms * 100 <= rate < (nbSamples10ms + 1) * 100
      ensures lenBytesPer10ms == nbSamples10ms * recBytesPerSample == ChunkBytes(rate, channels)
      ensures recIsInitialized
    {
      lastProcessTimeMs := now;
      recSampleRate := rate;
      recChannels := channels;
      recBytesPerSample := 2 * channels;
      nbSamples10ms := rate / 100;
      lenBytesPer10ms := nbSamples10ms * recBytesPerSample;
      recIsInitialized := true;
    }

    /**
     * A device for the decoder, initialised at time `now` with the decoder's audio
     * format, or null when there is no decoder.
     */
    static method Create(hasDecoder: bool, stopRefCount: int, capacity: nat, rate: nat, channels: nat, now: nat)
      returns (d: AudioDevice?)
      requires ChunkBytes(rate, channels) <= capacity
      ensures !hasDecoder ==> d == null
      ensures hasDecoder ==> d != null && fresh(d) && d.Valid() && d.recIsInitialized && !d.recording
      ensures hasDecoder ==> d.refCount == 1 && d.stopRefCount == stopRefCount && d.recBuffIndex == 0 && d.delivered == []
      ensures hasDecoder ==> d.lenBytesPer10ms == ChunkBytes(rate, channels) && d.lastProcessTimeMs == now
    {
      if !hasDecoder {
        return null;
      }
      d := new AudioDevice(stopRefCount, capacity);
      // The returned handle holds one reference, taken when it wraps the new device.
      var _ := d.AddRef();
      d.Initialize(rate, channels, now);
    }

    /** Milliseconds until Process is due again at clock reading `now`. */
    function TimeUntilNextProcess(now: nat): (r: int)
      reads this
      ensures 0 <= r <= MaxIdleTimeProcessMs
      ensures now < lastProcessTimeMs ==> r == 0
      ensures lastProcessTimeMs <= now <= lastProcessTimeMs + MaxIdleTimeProcessMs ==>
                r == MaxIdleTimeProcessMs - (now - lastProcessTimeMs)
      ensures now > lastProcessTimeMs + MaxIdleTimeProcessMs ==> r == 0
    {
      if now < lastProcessTimeMs then 0
      else
        var elapsed := now - lastProcessTimeMs;
        if MaxIdleTimeProcessMs < elapsed then 0 else MaxIdleTimeProcessMs - elapsed
    }

    /** Records `now` as the time of the last processing pass. */
    method Process(now: nat) returns (r: int)
      modifies this`lastProcessTimeMs
      ensures r == 0 && lastProcessTimeMs == now
      ensures TimeUntilNextProcess(now) == MaxIdleTimeProcessMs
    {
      lastProcessTimeMs := now;
      r := 0;
    }

    /** Only recording device 0 exists. */
    method SetRecordingDevice(index: nat) returns (r: int)
      modifies this`recordIndex
      ensures index == 0 ==> r == 0 && recordIndex == 0
      ensures index != 0 ==> r == -1 && recordIndex == old(recordIndex)
    {
      if index == 0 {
        recordIndex := index;
        return recordIndex;
      }
      return -1;
    }

    /** Recording is available exactly when the selected device is device 0. */
    method RecordingIsAvailable() returns (r: int, available: bool)
      ensures available <==> recordIndex == 0
      ensures r == (if available then 0 else -1)
    {
      if recordIndex == 0 {
        available := true;
        return recordIndex, available;
      }
      available := false;
      r := -1;
    }

    /** Starts delivering chunks from an empty buffer; refused before Initialize. */
    method StartRecording() returns (r: int)
      requires Valid()
      modifies this`recording, this`recBuffIndex, this`observerAttached
      ensures Valid()
      ensures !recIsInitialized ==>
                (r == -1 && recording == old(recording) && recBuffIndex == old(recBuffIndex)
                 && observerAttached == old(observerAttached))
      ensures recIsInitialized ==> r == 0 && recording && recBuffIndex == 0 && observerAttached
    {
      if !recIsInitialized {
        return -1;
      }
      recording := true;
      recBuffIndex := 0;
      observerAttached := true;
      r := 0;
    }

    /** Detaches from the decoder and clears the recording flag. */
    method StopRecording() returns (r: int)
      modifies this`recording, this`observerAttached
      ensures r == 0 && !recording && !observerAttached
    {
      observerAttached := false;
      recording := false;
      r := 0;
    }

    function Recording(): (on: bool)
      reads this
      ensures on <==> recording
    {
      recording
    }

    /**
     * Selects which channels to keep. A mono device refuses; keeping both channels
     * takes 4 bytes per sample frame, keeping one takes 2.
     */
    method SetRecordingChannel(channel: ChannelType) returns (r: int)
      requires Valid()
      modifies this`recBytesPerSample, this`recChannel
      ensures Valid()
      ensures recChannels == 1 ==> r == -1 && recBytesPerSample == old(recBytesPerSample) && recChannel == old(recChannel)
      ensures recChannels != 1 ==>
                (r == 0 && recChannel == channel && recBytesPerSample == (if channel == ChannelBoth then 4 else 2))
    {
      if recChannels == 1 {
        return -1;
      }
      if channel == ChannelBoth {
        recBytesPerSample := 4;
      } else {
        recBytesPerSample := 2;
      }
      recChannel := channel;
      r := 0;
    }

    method AddRef() returns (count: int)
      modifies this`refCount
      ensures refCount == old(refCount) + 1 && count == refCount
    {
      refCount := refCount + 1;
      count := refCount;
    }

    /** Drops a reference; stops recording at `stopRefCount` references and is deleted at none. */
    method Release() returns (count: int)
      modifies this`refCount, this`recording, this`observerAttached, this`deleted
      ensures count == old(refCount) - 1 && refCount == count
      ensures count == stopRefCount ==> !recording && !observerAttached
      ensures count != stopRefCount ==> recording == old(recording) && observerAttached == old(observerAttached)
      ensures deleted <==> old(deleted) || count == 0
    {
      refCount := refCount - 1;
      count := refCount;
      if count == stopRefCount {
        var _ := StopRecording();
      }
      if count == 0 {
        deleted := true;
      }
    }

    /** Hands the full chunk to the audio callback. */
    method DeliverRecordedData()
      requires lenBytesPer10ms <= recBuff.Length
      modifies this`delivered
      ensures delivered == old(delivered) + [recBuff[..lenBytesPer10ms]]
    {
      delivered := delivered + [recBuff[..lenBytesPer10ms]];
    }

    /** Stores one byte at the buffer index; a full chunk is delivered and the index reset. */
    method StoreByte(b: Byte)
      requires Valid() && lenBytesPer10ms > 0
      modifies this`recBuffIndex, this`delivered, recBuff
      ensures Valid()
      ensures Recorded() == Feed(old(Recorded()), b, lenBytesPer10ms)
    {
      ghost var pending := recBuff[..recBuffIndex];
      recBuff[recBuffIndex] := b;
      recBuffIndex := recBuffIndex + 1;
      assert recBuff[..recBuffIndex] == pending + [b];
      if recBuffIndex == lenBytesPer10ms {
        recBuffIndex := 0;
        DeliverRecordedData();
      }
    }

    /**
     * Accumulates the `nSamples` sample frames in `data` (with the corrected guard):
     * the bytes the selected channel picks are fed one by one into 10 ms chunks.
     */
    method OnRecData(data: seq<Byte>, nSamples: nat)
      requires Valid()
      requires NbSrcBytes(nSamples, recBytesPerSample) <= |data|
      modifies this`recBuffIndex, this`delivered, recBuff
      ensures Valid()
      ensures !Accepts(recSampleRate, NbSrcBytes(nSamples, recBytesPerSample), recChannels, lenBytesPer10ms) ==>
                (recBuffIndex == old(recBuffIndex) && delivered == old(delivered) && recBuff[..] == old(recBuff[..]))
      ensures Accepts(recSampleRate, NbSrcBytes(nSamples, recBytesPerSample), recChannels, lenBytesPer10ms) ==>
                (Recorded() == FeedAll(old(Recorded()), Picked(data, FirstSourceByte(recChannel), SourceStride(recChannel),
                                                              NbSrcBytes(nSamples, recBytesPerSample)), lenBytesPer10ms))
    {
      var nbSrc := NbSrcBytes(nSamples, recBytesPerSample);
      if !Accepts(recSampleRate, nbSrc, recChannels, lenBytesPer10ms) {
        return;
      }
      var src := FirstSourceByte(recChannel);
      var step := SourceStride(recChannel);
      ghost var goal := FeedAll(Recorded(), Picked(data, src, step, nbSrc), lenBytesPer10ms);
      // The source byte count is even and non-zero, so the do-while body runs at
      // least once exactly when this loop's condition first holds.
      EvenByteCount(nSamples, recBytesPerSample / 2);
      while src < nbSrc
        invariant Valid() && lenBytesPer10ms > 0
        invariant FeedAll(Recorded(), Picked(data, src, step, nbSrc), lenBytesPer10ms) == goal
        decreases nbSrc - src
      {
        FeedAllCons(Recorded(), data[src], Picked(data, src + step, step, nbSrc), lenBytesPer10ms);
        StoreByte(data[src]);
        src := src + 1;
        if recChannel != ChannelBoth {
          src := src + 1;
        }
      }
    }
  }

  /** A full chunk is always delivered whole, and whatever is left waits below one chunk. */
  lemma OnRecDataDeliversWholeChunks(r: Recorder, data: seq<Byte>, channel: ChannelType, nbSrc: nat, chunk: nat)
    requires nbSrc <= |data| && 0 < chunk && |r.pending| < chunk
    ensures var r' := FeedAll(r, Picked(data, FirstSourceByte(channel), SourceStride(channel), nbSrc), chunk);
      && |r'.pending| < chunk
      && (forall i | |r.delivered| <= i < |r'.delivered| :: |r'.delivered[i]| == chunk)
      && Flatten(r'.delivered) + r'.pending == Flatten(r.delivered) + r.pending + Picked(data, FirstSourceByte(channel), SourceStride(channel), nbSrc)
  {
    var bytes := Picked(data, FirstSourceByte(channel), SourceStride(channel), nbSrc);
    FeedAllChunks(r, bytes, chunk);
    FeedAllConserves(r, bytes, chunk);
  }
}
