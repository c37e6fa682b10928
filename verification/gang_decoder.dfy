/**
 * The older decoder revision of gang_decoder.c: its defaults, the stream
 * selection loop of start_gang_decode, the I420 repack of a decoded picture
 * into one contiguous buffer, the frame record gang_decode_next_frame hands
 * out, and free_gang_frame.
 *
 * Library outcomes (open results, stream types, decoded pictures) are
 * parameters. A decoded picture's plane p is given as its rows: row i is the
 * bytes that start i * linesize[p] bytes into the plane.
 */
module GangDecoder {
  import opened Common

  datatype MediaType = Video | Audio | OtherMedia

  /** The stream-index value meaning "no such stream". */
  const NoStream: int := -1

  /** The frame rate a new decoder assumes. */
  const DefaultFps: int := 20

  // ---------------------------------------------------------------------
  // Stream selection
  // ---------------------------------------------------------------------

  /**
   * The index the selection loop leaves for `kind` after scanning `types`,
   * starting from `prior`: the last stream of that kind, or `prior` when there
   * is none.
   */
  function LastOfKind(types: seq<MediaType>, kind: MediaType, prior: int): (r: int)
    ensures r == prior || (0 <= r < |types| && types[r] == kind)
  {
    if |types| == 0 then prior
    else if types[|types| - 1] == kind then |types| - 1
    else LastOfKind(types[..|types| - 1], kind, prior)
  }

  /** No stream of the kind follows the chosen one, and `prior` survives only when there is none. */
  lemma {:induction false} LastOfKindIsLast(types: seq<MediaType>, kind: MediaType, prior: int)
    ensures var r := LastOfKind(types, kind, prior);
            && (r != prior ==> forall j :: r < j < |types| ==> types[j] != kind)
            && ((exists j :: 0 <= j < |types| && types[j] == kind) ==>
                  0 <= r < |types| && types[r] == kind && forall j :: r < j < |types| ==> types[j] != kind)
            && ((forall j :: 0 <= j < |types| ==> types[j] != kind) ==> r == prior)
  {
    if |types| > 0 && types[|types| - 1] != kind {
      var init := types[..|types| - 1];
      LastOfKindIsLast(init, kind, prior);
      assert forall j :: 0 <= j < |types| - 1 ==> init[j] == types[j];
    }
  }

  /** Streams of the other two kinds do not disturb the choice. */
  lemma {:induction false} LastOfKindIgnoresOthers(types: seq<MediaType>, kind: MediaType, prior: int, t: MediaType)
    requires t != kind
    ensures LastOfKind(types + [t], kind, prior) == LastOfKind(types, kind, prior)
  {
    assert (types + [t])[..|types|] == types;
  }

  // ---------------------------------------------------------------------
  // I420 layout
  // ---------------------------------------------------------------------

  /** The first `n` rows, each holding at least `len` bytes. */
  ghost predicate RowsCover(rows: seq<seq<Byte>>, n: nat, len: nat) {
    n <= |rows| && forall i :: 0 <= i < n ==> len <= |rows[i]|
  }

  /** The first `len` bytes of rows 0 .. n-1, one after the other. */
  ghost function Rows(rows: seq<seq<Byte>>, n: nat, len: nat): (r: seq<Byte>)
    requires RowsCover(rows, n, len)
  {
    if n == 0 then [] else Rows(rows, n - 1, len) + rows[n - 1][..len]
  }

  lemma {:induction false} RowsLength(rows: seq<seq<Byte>>, n: nat, len: nat)
    requires RowsCover(rows, n, len)
    ensures |Rows(rows, n, len)| == n * len
  {
    if n > 0 {
      RowsLength(rows, n - 1, len);
      assert n * len == (n - 1) * len + len;
    }
  }

  /** Byte j of row i lands at offset i * len. */
  lemma {:induction false} RowsAt(rows: seq<seq<Byte>>, n: nat, len: nat, i: nat, j: nat)
    requires RowsCover(rows, n, len)
    requires i < n && j < len
    ensures i * len + j < |Rows(rows, n, len)|
    ensures Rows(rows, n, len)[i * len + j] == rows[i][j]
  {
    RowsLength(rows, n, len);
    RowsLength(rows, n - 1, len);
    if i == n - 1 {
      assert i * len == (n - 1) * len;
    } else {
      RowsAt(rows, n - 1, len, i, j);
      MulMono(i + 1, n - 1, len);
      assert (i + 1) * len == i * len + len;
    }
  }

  /** A decoded picture: the rows of its Y, U and V planes. */
  datatype Picture = Picture(y: seq<seq<Byte>>, u: seq<seq<Byte>>, v: seq<seq<Byte>>)

  /** The planes hold a width x height picture with half-size chroma. */
  ghost predicate PictureCovers(p: Picture, height: nat, width: nat) {
    && RowsCover(p.y, height, width)
    && RowsCover(p.u, height / 2, width / 2)
    && RowsCover(p.v, height / 2, width / 2)
  }

  /** Y rows of `width` bytes, then height/2 U rows and height/2 V rows of width/2 bytes. */
  ghost function I420(p: Picture, height: nat, width: nat): seq<Byte>
    requires PictureCovers(p, height, width)
  {
    Rows(p.y, height, width) + Rows(p.u, height / 2, width / 2) + Rows(p.v, height / 2, width / 2)
  }

  /** The size of the buffer the picture is copied into. */
  function I420BufferSize(height: nat, width: nat): (size: nat)
    ensures size * 2 <= height * width * 3 < size * 2 + 2
  {
    height * width * 3 / 2
  }

  /** Two half-size (rounded down) chroma planes together hold at most half a luma plane. */
  lemma ChromaFits(height: nat, width: nat)
    ensures 4 * ((height / 2) * (width / 2)) <= height * width
  {
    var h2, w2 := height / 2, width / 2;
    MulMono(2 * h2, height, 2 * w2);
    MulMono(2 * w2, width, height);
    assert 4 * (h2 * w2) == (2 * h2) * (2 * w2);
    assert height * (2 * w2) == (2 * w2) * height;
  }

  /** The three planes fit the height * width * 3 / 2 buffer. */
  lemma {:induction false} I420Fits(p: Picture, height: nat, width: nat)
    requires PictureCovers(p, height, width)
    ensures |I420(p, height, width)| == height * width + 2 * ((height / 2) * (width / 2))
    ensures |I420(p, height, width)| <= I420BufferSize(height, width)
  {
    RowsLength(p.y, height, width);
    RowsLength(p.u, height / 2, width / 2);
    RowsLength(p.v, height / 2, width / 2);
    ChromaFits(height, width);
  }

  /** Byte j of Y row i lands at offset i * width. */
  lemma {:induction false} I420LumaAt(p: Picture, height: nat, width: nat, i: nat, j: nat)
    requires PictureCovers(p, height, width)
    requires i < height && j < width
    ensures i * width + j < |I420(p, height, width)|
    ensures I420(p, height, width)[i * width + j] == p.y[i][j]
  {
    RowsAt(p.y, height, width, i, j);
  }

  /** Byte j of U row i lands at offset height * width + i * (width / 2). */
  lemma {:induction false} I420UAt(p: Picture, height: nat, width: nat, i: nat, j: nat)
    requires PictureCovers(p, height, width)
    requires i < height / 2 && j < width / 2
    ensures height * width + i * (width / 2) + j < |I420(p, height, width)|
    ensures I420(p, height, width)[height * width + i * (width / 2) + j] == p.u[i][j]
  {
    RowsLength(p.y, height, width);
    RowsAt(p.u, height / 2, width / 2, i, j);
    assert I420(p, height, width)[height * width..] == Rows(p.u, height / 2, width / 2) + Rows(p.v, height / 2, width / 2);
  }

  /** Byte j of V row i lands after the U plane, at offset i * (width / 2) within its own plane. */
  lemma {:induction false} I420VAt(p: Picture, height: nat, width: nat, i: nat, j: nat)
    requires PictureCovers(p, height, width)
    requires i < height / 2 && j < width / 2
    ensures height * width + (height / 2) * (width / 2) + i * (width / 2) + j < |I420(p, height, width)|
    ensures I420(p, height, width)[height * width + (height / 2) * (width / 2) + i * (width / 2) + j] == p.v[i][j]
  {
    RowsLength(p.y, height, width);
    RowsLength(p.u, height / 2, width / 2);
    RowsAt(p.v, height / 2, width / 2, i, j);
    var off := height * width + (height / 2) * (width / 2);
    assert I420(p, height, width)[off..] == Rows(p.v, height / 2, width / 2);
  }

  /**
   * One repack loop: rows 0 .. n-1 are copied, `len` bytes each, starting at
   * offset `a`, which advances by `len` per row.
   */
  method CopyRows(dst: array<Byte>, a: nat, rows: seq<seq<Byte>>, n: nat, len: nat) returns (end: nat)
    requires RowsCover(rows, n, len)
    requires a + n * len <= dst.Length
    modifies dst
    ensures end == a + n * len
    ensures dst[..end] == old(dst[..a]) + Rows(rows, n, len)
    ensures dst[end..] == old(dst[end..])
  {
    ghost var before := dst[..];
    var i := 0;
    end := a;
    while i < n
      invariant 0 <= i <= n
      invariant end == a + i * len
      invariant dst[..end] == before[..a] + Rows(rows, i, len)
      invariant dst[end..] == before[end..]
    {
      MulStep(i, n, len);
      ghost var mid := dst[..];
      CopyAt(dst, end, rows[i][..len]);
      assert dst[..end + len] == dst[..end] + rows[i][..len];
      assert Rows(rows, i + 1, len) == Rows(rows, i, len) + rows[i][..len];
      assert mid[end + len..] == mid[end..][len..];
      assert before[end + len..] == before[end..][len..];
      end := end + len;
      i := i + 1;
    }
  }

  /** The three repack loops: Y rows, then U rows, then V rows, from offset 0. */
  method CopyPlanes(buf: array<Byte>, p: Picture, height: nat, width: nat) returns (a: nat)
    requires PictureCovers(p, height, width)
    requires |I420(p, height, width)| <= buf.Length
    modifies buf
    ensures a == |I420(p, height, width)|
    ensures buf[..a] == I420(p, height, width)
    ensures buf[a..] == old(buf[a..])
  {
    ghost var y, u, v := Rows(p.y, height, width), Rows(p.u, height / 2, width / 2), Rows(p.v, height / 2, width / 2);
    RowsLength(p.y, height, width);
    RowsLength(p.u, height / 2, width / 2);
    RowsLength(p.v, height / 2, width / 2);
    ghost var b0 := buf[..];
    a := CopyRows(buf, 0, p.y, height, width);
    assert buf[..a] == y && a == |y|;
    ghost var b1 := buf[..];
    a := CopyRows(buf, a, p.u, height / 2, width / 2);
    assert buf[..a] == y + u && a == |y| + |u|;
    ghost var b2 := buf[..];
    a := CopyRows(buf, a, p.v, height / 2, width / 2);
    assert buf[..a] == y + u + v;
    assert b1[a..] == b1[|y|..][|u| + |v|..] && b0[a..] == b0[|y|..][|u| + |v|..];
    assert b2[a..] == b2[|y| + |u|..][|v|..] && b1[a..] == b1[|y| + |u|..][|v|..];
  }

  /**
   * The video branch of gang_decode_next_frame on a decoded picture: a zeroed
   * height * width * 3 / 2 buffer receives the Y rows, then the U rows, then
   * the V rows.
   */
  method RepackI420(p: Picture, height: nat, width: nat) returns (buf: array<Byte>)
    requires PictureCovers(p, height, width)
    ensures fresh(buf) && buf.Length == I420BufferSize(height, width)
    ensures |I420(p, height, width)| <= buf.Length
    ensures buf[..|I420(p, height, width)|] == I420(p, height, width)
    ensures forall k :: |I420(p, height, width)| <= k < buf.Length ==> buf[k] == 0
  {
    I420Fits(p, height, width);
    buf := new Byte[I420BufferSize(height, width)](_ => 0);
    ghost var zeros := buf[..];
    var a := CopyPlanes(buf, p, height, width);
    forall k | a <= k < buf.Length
      ensures buf[k] == 0
    {
      assert buf[k] == buf[a..][k - a] == zeros[a..][k - a];
    }
  }

  // ---------------------------------------------------------------------
  // Frame records
  // ---------------------------------------------------------------------

  /**
   * struct gang_frame: its data buffer (null for NULL), size, pts, is_video
   * and status. `Uninitialised` is the record returned for a packet of
   * neither stream, whose fields are never written.
   */
  datatype GangFrame =
    | GangFrame(data: array?<Byte>, size: int, pts: int, isVideo: int, status: int)
    | Uninitialised

  /** The packet just read: its stream, size and presentation timestamp. */
  datatype PacketInfo = PacketInfo(streamIndex: int, size: int, pts: int)

  /** A decode attempt: whether a picture came out, and the picture's planes. */
  datatype VideoUnit = VideoUnit(gotPicture: bool, picture: Picture)

  /**
   * An audio decode attempt: whether a frame came out, and the bytes memcpy
   * reads at the frame's `data` member (its table of plane pointers).
   */
  datatype AudioUnit = AudioUnit(gotFrame: bool, tableBytes: seq<Byte>)

  /** The record of a failed decode of the given kind. */
  function FailedFrame(isVideo: int): (f: GangFrame)
    ensures f.GangFrame? && f.data == null && f.size == 0 && f.pts == 0 && f.status == 0
    ensures f.isVideo == isVideo
  {
    GangFrame(null, 0, 0, isVideo, 0)
  }

  /** What free_gang_frame does with a record pointer (None is NULL). */
  datatype FreeOutcome = Freed(dataFreed: bool, recordFreed: bool) | NullDereference | FreesGarbage

  /** free_gang_frame as written: the data field is read before the NULL test. */
  function FreeFrameAsWritten(f: Option<GangFrame>): (o: FreeOutcome)
    ensures f.None? ==> o == NullDereference
    ensures f.Some? && f.value.GangFrame? ==> o == Freed(f.value.data != null, true)
  {
    match f
    case None => NullDereference
    case Some(Uninitialised) => FreesGarbage
    case Some(GangFrame(data, _, _, _, _)) => Freed(data != null, true)
  }

  /** Freeing NULL, which the function's own NULL test is there to allow, faults. */
  lemma FreeNullFaults()
    ensures FreeFrameAsWritten(None) == NullDereference
  {
  }

  /** free_gang_frame with the NULL test first: NULL is a no-op. */
  function FreeFrame(f: Option<GangFrame>): (o: FreeOutcome)
    ensures f.None? ==> o == Freed(false, false)
    ensures f.Some? && f.value.GangFrame? ==> o == Freed(f.value.data != null, true)
    ensures f.Some? && f.value.Uninitialised? ==> o == FreesGarbage
  {
    match f
    case None => Freed(false, false)
    case Some(Uninitialised) => FreesGarbage
    case Some(GangFrame(data, _, _, _, _)) => Freed(data != null, true)
  }

  /** Both versions agree on every non-NULL record. */
  lemma {:induction false} FreeFrameAgrees(f: GangFrame)
    ensures FreeFrame(Some(f)) == FreeFrameAsWritten(Some(f))
  {
  }

  // ---------------------------------------------------------------------
  // The decoder
  // ---------------------------------------------------------------------

  /**
   * The opaque outcomes start_gang_decode depends on: avformat_open_input,
   * avformat_find_stream_info, the codec type of every stream, the opened
   * video codec's picture size and the two avcodec_open2 results.
   */
  datatype StartEnv = StartEnv(
    openRet: int, streamInfoRet: int, types: seq<MediaType>,
    videoWidth: int, videoHeight: int, videoOpenRet: int, audioOpenRet: int)

  class LegacyDecoder {
    var url: string
    var bestWidth: int
    var bestHeight: int
    var bestFps: int
    var videoStreamIndex: int
    var audioStreamIndex: int
    /** i_fmt_ctx is open. */
    var inputOpen: bool
    /** The video codec context's picture size. */
    var codecWidth: int
    var codecHeight: int

    /** new_gang_decoder */
    constructor(url: string)
      ensures this.url == url
      ensures bestWidth == 0 && bestHeight == 0 && bestFps == DefaultFps
      ensures videoStreamIndex == NoStream && audioStreamIndex == NoStream
      ensures !inputOpen
    {
      this.url := url;
      bestWidth := 0;
      bestHeight := 0;
      bestFps := DefaultFps;
      videoStreamIndex := NoStream;
      audioStreamIndex := NoStream;
      inputOpen := false;
      codecWidth := 0;
      codecHeight := 0;
    }

    /** The loop of start_gang_decode: no break, so the last stream of each kind wins. */
    method SelectStreams(types: seq<MediaType>)
      modifies this`videoStreamIndex, this`audioStreamIndex
      ensures videoStreamIndex == LastOfKind(types, Video, old(videoStreamIndex))
      ensures audioStreamIndex == LastOfKind(types, Audio, old(audioStreamIndex))
    {
      var i := 0;
      while i < |types|
        invariant 0 <= i <= |types|
        invariant videoStreamIndex == LastOfKind(types[..i], Video, old(videoStreamIndex))
        invariant audioStreamIndex == LastOfKind(types[..i], Audio, old(audioStreamIndex))
      {
        ghost var seen := types[..i];
        assert types[..i + 1] == seen + [types[i]];
        if types[i] == Video {
          videoStreamIndex := i;
          assert LastOfKind(seen + [Video], Video, old(videoStreamIndex)) == i;
          LastOfKindIgnoresOthers(seen, Audio, old(audioStreamIndex), Video);
        } else if types[i] == Audio {
          audioStreamIndex := i;
          assert LastOfKind(seen + [Audio], Audio, old(audioStreamIndex)) == i;
          LastOfKindIgnoresOthers(seen, Video, old(videoStreamIndex), Audio);
        } else {
          LastOfKindIgnoresOthers(seen, Video, old(videoStreamIndex), OtherMedia);
          LastOfKindIgnoresOthers(seen, Audio, old(audioStreamIndex), OtherMedia);
        }
        i := i + 1;
      }
      assert types[..|types|] == types;
    }

    /**
     * start_gang_decode: -1 when the input cannot be opened or probed, 0 when
     * a selected stream's codec does not open, 1 otherwise.
     */
    method StartDecode(env: StartEnv) returns (r: int)
      modifies this`videoStreamIndex, this`audioStreamIndex, this`inputOpen, this`codecWidth, this`codecHeight
      ensures r == -1 <==> env.openRet != 0 || env.streamInfoRet < 0
      ensures r == -1 ==> videoStreamIndex == old(videoStreamIndex) && audioStreamIndex == old(audioStreamIndex)
      ensures r != -1 ==>
                && videoStreamIndex == LastOfKind(env.types, Video, old(videoStreamIndex))
                && audioStreamIndex == LastOfKind(env.types, Audio, old(audioStreamIndex))
      ensures r == 1 <==>
                && env.openRet == 0 && env.streamInfoRet >= 0
                && (videoStreamIndex != NoStream ==> env.videoOpenRet >= 0)
                && (audioStreamIndex != NoStream ==> env.audioOpenRet >= 0)
      ensures r == -1 || r == 0 || r == 1
      ensures r == 1 && videoStreamIndex != NoStream ==> codecWidth == env.videoWidth && codecHeight == env.videoHeight
    {
      if env.openRet != 0 {
        inputOpen := false;
        return -1;
      }
      inputOpen := true;
      if env.streamInfoRet < 0 {
        return -1;
      }
      SelectStreams(env.types);
      if videoStreamIndex != NoStream {
        codecWidth := env.videoWidth;
        codecHeight := env.videoHeight;
        if env.videoOpenRet < 0 {
          return 0;
        }
      }
      if audioStreamIndex != NoStream {
        if env.audioOpenRet < 0 {
          return 0;
        }
      }
      return 1;
    }

    /**
     * gang_decode_next_frame: a failed read is only reported, and the packet
     * then examined is whatever the packet holds. A video packet yields the
     * repacked picture, an audio packet a copy of `pkt.size` bytes, a packet
     * of neither stream a record that is never written.
     */
    method DecodeNextFrame(pkt: PacketInfo, video: VideoUnit, audio: AudioUnit) returns (f: GangFrame)
      requires pkt.streamIndex == videoStreamIndex && video.gotPicture ==>
                 codecWidth >= 0 && codecHeight >= 0 && PictureCovers(video.picture, codecHeight, codecWidth)
      requires pkt.streamIndex != videoStreamIndex && pkt.streamIndex == audioStreamIndex && audio.gotFrame ==>
                 0 <= pkt.size <= |audio.tableBytes|
      ensures pkt.streamIndex == videoStreamIndex ==> f.GangFrame? && f.isVideo == 1
      ensures pkt.streamIndex == videoStreamIndex && video.gotPicture ==>
                && f.status == 1 && f.size == pkt.size && f.pts == pkt.pts
                && f.data != null && fresh(f.data)
                && f.data.Length == I420BufferSize(codecHeight, codecWidth)
                && |I420(video.picture, codecHeight, codecWidth)| <= f.data.Length
                && f.data[..|I420(video.picture, codecHeight, codecWidth)|] == I420(video.picture, codecHeight, codecWidth)
      ensures pkt.streamIndex == videoStreamIndex && !video.gotPicture ==> f == FailedFrame(1)
      ensures pkt.streamIndex != videoStreamIndex && pkt.streamIndex == audioStreamIndex ==>
                f.GangFrame? && f.isVideo == 0
      ensures pkt.streamIndex != videoStreamIndex && pkt.streamIndex == audioStreamIndex && audio.gotFrame ==>
                && f.status == 1 && f.size == pkt.size && f.pts == pkt.pts
                && f.data != null && fresh(f.data) && f.data[..] == audio.tableBytes[..pkt.size]
      ensures pkt.streamIndex != videoStreamIndex && pkt.streamIndex == audioStreamIndex && !audio.gotFrame ==>
                f == FailedFrame(0)
      ensures pkt.streamIndex != videoStreamIndex && pkt.streamIndex != audioStreamIndex ==> f == Uninitialised
    {
      if pkt.streamIndex == videoStreamIndex {
        if video.gotPicture {
          var buf := RepackI420(video.picture, codecHeight, codecWidth);
          f := GangFrame(buf, pkt.size, pkt.pts, 1, 1);
        } else {
          f := FailedFrame(1);
        }
      } else if pkt.streamIndex == audioStreamIndex {
        if audio.gotFrame {
          var buf := NewCopy(audio.tableBytes[..pkt.size]);
          f := GangFrame(buf, pkt.size, pkt.pts, 0, 1);
        } else {
          f := FailedFrame(0);
        }
      } else {
        f := Uninitialised;
      }
    }
  }
}
