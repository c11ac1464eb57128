/** Container log de-framing: agent/docker.go lines 48-52 and 861-945.

    A multiplexed stream is a sequence of frames. Each frame has an eight-byte header (stream type,
    three zero bytes, big-endian payload length) followed by its payload. */
module DockerLogs {

  newtype byte = x: int | 0 <= x < 256

  const HEADER_SIZE: nat := 8
  const MAX_LOG_FRAME_SIZE: nat := 0x10_0000
  const MAX_TOTAL_LOG_SIZE: nat := 0x50_0000

  datatype IoError = NoIoError | Eof | UnexpectedEof | Broken

  datatype LogError = NoLogError | ReadFailed | FrameTooLarge(size: nat)

  // ---------------------------------------------------------------------------------------------
  // The reader and the builder
  // ---------------------------------------------------------------------------------------------

  /** An io.Reader over the response body. After its last byte it reports end of file, or another
      error when `broken`. */
  class LogReader {
    const data: seq<byte>
    const broken: bool
    var pos: nat

    constructor (data: seq<byte>, broken: bool)
      ensures this.data == data && this.broken == broken && pos == 0
    {
      this.data, this.broken, pos := data, broken, 0;
    }

    ghost predicate Valid()
      reads this
    {
      pos <= |data|
    }

    ghost function Rest(): seq<byte>
      reads this
      requires Valid()
    {
      data[pos..]
    }

    /** bufio.Reader.Peek: looks at the next bytes without consuming them. */
    method Peek(n: nat) returns (buf: seq<byte>, ok: bool)
      requires Valid()
      ensures ok <==> n <= |Rest()|
      ensures ok ==> buf == Rest()[..n]
    {
      ok := n <= |data| - pos;
      buf := if ok then data[pos..pos + n] else data[pos..];
    }

    /** io.ReadFull: all `n` bytes, or an error after consuming what was left. */
    method ReadFull(n: nat) returns (buf: seq<byte>, err: IoError)
      requires Valid() && n > 0
      modifies this
      ensures Valid()
      ensures err.NoIoError? <==> n <= |old(Rest())|
      ensures err.NoIoError? ==> buf == old(Rest())[..n] && Rest() == old(Rest())[n..]
      ensures !err.NoIoError? ==> Rest() == [] && (err.Broken? <==> broken) && (err.Eof? <==> !broken && old(Rest()) == [])
    {
      if n <= |data| - pos {
        buf, err := data[pos..pos + n], NoIoError;
        pos := pos + n;
      } else {
        buf := data[pos..];
        err := if broken then Broken else if pos == |data| then Eof else UnexpectedEof;
        pos := |data|;
      }
    }

    /** io.CopyN: appends up to `n` bytes to the builder; short copies report why. */
    method CopyN(builder: Builder, n: nat) returns (err: IoError)
      requires Valid()
      modifies this, builder
      ensures Valid()
      ensures err.NoIoError? <==> n <= |old(Rest())|
      ensures err.NoIoError? ==> builder.content == old(builder.content) + old(Rest())[..n] && Rest() == old(Rest())[n..]
      ensures !err.NoIoError? ==> builder.content == old(builder.content) + old(Rest()) && Rest() == []
      ensures !err.NoIoError? ==> err == if broken then Broken else Eof
    {
      if n <= |data| - pos {
        builder.content := builder.content + data[pos..pos + n];
        pos := pos + n;
        err := NoIoError;
      } else {
        builder.content := builder.content + data[pos..];
        pos := |data|;
        err := if broken then Broken else Eof;
      }
    }
  }

  class Builder {
    var content: seq<byte>

    constructor ()
      ensures content == []
    {
      content := [];
    }
  }

  // ---------------------------------------------------------------------------------------------
  // Reference definitions
  // ---------------------------------------------------------------------------------------------

  datatype Frame = Frame(kind: byte, payload: seq<byte>)

  function BigEndian(b: seq<byte>): nat
    requires |b| == 4
  {
    b[0] as nat * 0x100_0000 + b[1] as nat * 0x1_0000 + b[2] as nat * 0x100 + b[3] as nat
  }

  function FrameLength(s: seq<byte>): nat
    requires |s| >= HEADER_SIZE
  {
    BigEndian(s[4..8])
  }

  function LengthBytes(n: nat): (b: seq<byte>)
    requires n < 0x1_0000_0000
    ensures |b| == 4 && BigEndian(b) == n
  {
    [(n / 0x100_0000) as byte, (n / 0x1_0000 % 0x100) as byte, (n / 0x100 % 0x100) as byte, (n % 0x100) as byte]
  }

  /** Every payload length fits the header. */
  predicate Encodable(frames: seq<Frame>) {
    forall i | 0 <= i < |frames| :: |frames[i].payload| < 0x1_0000_0000
  }

  predicate WithinFrameLimit(frames: seq<Frame>) {
    forall i | 0 <= i < |frames| :: |frames[i].payload| <= 1_048_576
  }

  function Header(f: Frame): seq<byte>
    requires |f.payload| < 0x1_0000_0000
  {
    [f.kind, 0, 0, 0] + LengthBytes(|f.payload|)
  }

  /** What a conforming engine writes. */
  function Encode(frames: seq<Frame>): seq<byte>
    requires Encodable(frames)
  {
    if frames == [] then []
    else Header(frames[0]) + frames[0].payload + Encode(frames[1..])
  }

  function Concat(frames: seq<Frame>): seq<byte> {
    if frames == [] then [] else frames[0].payload + Concat(frames[1..])
  }

  /** The payload bytes of any byte stream, with no size limits: the last frame may be cut short. */
  function Payload(s: seq<byte>): seq<byte>
    decreases |s|
  {
    if |s| < HEADER_SIZE then []
    else
      var n, rest := FrameLength(s), s[HEADER_SIZE..];
      if |rest| < n then rest else rest[..n] + Payload(rest[n..])
  }

  datatype Decoded = Decoded(out: seq<byte>, err: LogError)

  /** One pass of the decoding loop after another; `total` payload bytes were already written. */
  function Decode(s: seq<byte>, broken: bool, total: nat): Decoded
    decreases |s|
  {
    if |s| < HEADER_SIZE then Decoded([], if broken then ReadFailed else NoLogError)
    else
      var n, rest := FrameLength(s), s[HEADER_SIZE..];
      if n == 0 then Decode(rest, broken, total)
      else if n > MAX_LOG_FRAME_SIZE then Decoded([], FrameTooLarge(n))
      else if total + n > MAX_TOTAL_LOG_SIZE then Decoded([], NoLogError)
      else if |rest| < n then Decoded(rest, if broken then ReadFailed else NoLogError)
      else
        var d := Decode(rest[n..], broken, total + n);
        Decoded(rest[..n] + d.out, d.err)
  }

  /** The stream starts with the header of a standard output or standard error frame of legal size. */
  predicate LooksMultiplexed(s: seq<byte>) {
    |s| >= HEADER_SIZE && s[0] in {1, 2} && s[1] == s[2] == s[3] == 0 && FrameLength(s) <= MAX_LOG_FRAME_SIZE
  }

  /** No frame that carries any byte is over the frame limit or takes the total over its limit. */
  predicate Fits(s: seq<byte>, total: nat)
    decreases |s|
  {
    |s| < HEADER_SIZE ||
    var n, rest := FrameLength(s), s[HEADER_SIZE..];
    if n == 0 then Fits(rest, total)
    else rest == [] ||
         (n <= 1_048_576 && total + n <= 5_242_880 && (|rest| < n || Fits(rest[n..], total + n)))
  }

  // ---------------------------------------------------------------------------------------------
  // The program
  // ---------------------------------------------------------------------------------------------

  method DetectDockerMultiplexedStream(reader: LogReader) returns (multiplexed: bool)
    requires reader.Valid()
    ensures multiplexed <==> LooksMultiplexed(reader.Rest())
  {
    var header, ok := reader.Peek(HEADER_SIZE);
    if !ok {
      return false;
    }
    if header[0] != 1 && header[0] != 2 {
      return false;
    }
    if header[1] != 0 || header[2] != 0 || header[3] != 0 {
      return false;
    }
    assert header[4..] == reader.Rest()[4..8];
    var frameLen := BigEndian(header[4..]);
    return frameLen <= MAX_LOG_FRAME_SIZE;
  }

  method DecodeDockerLogStream(reader: LogReader, builder: Builder, multiplexed: bool) returns (err: LogError)
    requires reader.Valid()
    modifies reader, builder
    ensures reader.Valid()
    ensures multiplexed ==>
              var d := Decode(old(reader.Rest()), reader.broken, 0);
              builder.content == old(builder.content) + d.out && err == d.err
    ensures !multiplexed ==>
              var s := old(reader.Rest());
              && builder.content == old(builder.content) + (if |s| < MAX_TOTAL_LOG_SIZE then s else s[..MAX_TOTAL_LOG_SIZE])
              && err == (if reader.broken && |s| < MAX_TOTAL_LOG_SIZE then ReadFailed else NoLogError)
  {
    if !multiplexed {
      var ioErr := reader.CopyN(builder, MAX_TOTAL_LOG_SIZE);
      return if ioErr.Broken? then ReadFailed else NoLogError;
    }
    err := DecodeFrames(reader, builder);
  }

  /** One turn of the decoding loop: Decode unfolded once. */
  ghost function Turn(s: seq<byte>, broken: bool, total: nat): Decoded {
    if |s| < HEADER_SIZE then Decoded([], if broken then ReadFailed else NoLogError)
    else
      var n, rest := FrameLength(s), s[HEADER_SIZE..];
      if n == 0 then Decode(rest, broken, total)
      else if n > MAX_LOG_FRAME_SIZE then Decoded([], FrameTooLarge(n))
      else if total + n > MAX_TOTAL_LOG_SIZE then Decoded([], NoLogError)
      else if |rest| < n then Decoded(rest, if broken then ReadFailed else NoLogError)
      else Decoded(rest[..n] + Decode(rest[n..], broken, total + n).out, Decode(rest[n..], broken, total + n).err)
  }

  lemma DecodeIsTurn(s: seq<byte>, broken: bool, total: nat)
    ensures Decode(s, broken, total) == Turn(s, broken, total)
  {
  }

  /** The loop over a multiplexed stream. */
  method DecodeFrames(reader: LogReader, builder: Builder) returns (err: LogError)
    requires reader.Valid()
    modifies reader, builder
    ensures reader.Valid()
    ensures var d := Decode(old(reader.Rest()), reader.broken, 0);
            builder.content == old(builder.content) + d.out && err == d.err
  {
    hide Decode, BigEndian;
    var totalBytesRead: nat := 0;
    ghost var whole := Decode(reader.Rest(), reader.broken, 0);
    while true
      invariant reader.Valid()
      invariant old(builder.content) + whole.out == builder.content + Decode(reader.Rest(), reader.broken, totalBytesRead).out
      invariant whole.err == Decode(reader.Rest(), reader.broken, totalBytesRead).err
      decreases |reader.Rest()|
    {
      ghost var s := reader.Rest();
      DecodeIsTurn(s, reader.broken, totalBytesRead);
      var header, headErr := reader.ReadFull(HEADER_SIZE);
      if !headErr.NoIoError? {
        if headErr.Eof? || headErr.UnexpectedEof? {
          return NoLogError;
        }
        return ReadFailed;
      }
      assert header[4..] == s[4..8];
      var frameLen := BigEndian(header[4..]);
      assert frameLen == FrameLength(s);
      if frameLen == 0 {
        continue;
      }
      if frameLen > MAX_LOG_FRAME_SIZE {
        return FrameTooLarge(frameLen);
      }
      if totalBytesRead + frameLen > MAX_TOTAL_LOG_SIZE {
        var discard := new Builder();
        var _ := reader.CopyN(discard, frameLen);
        return NoLogError;
      }
      var copyErr := reader.CopyN(builder, frameLen);
      if !copyErr.NoIoError? {
        if copyErr.Eof? || copyErr.UnexpectedEof? {
          return NoLogError;
        }
        return ReadFailed;
      }
      totalBytesRead := totalBytesRead + frameLen;
    }
  }

  /** The body of a logs response: multiplexed when the content type says so or its start looks so. */
  ghost function LogsOf(s: seq<byte>, broken: bool, framedContentType: bool): Decoded {
    if framedContentType || LooksMultiplexed(s) then Decode(s, broken, 0)
    else if |s| < MAX_TOTAL_LOG_SIZE then Decoded(s, if broken then ReadFailed else NoLogError)
    else Decoded(s[..MAX_TOTAL_LOG_SIZE], NoLogError)
  }

  method GetLogs(reader: LogReader, framedContentType: bool) returns (logs: seq<byte>, err: LogError)
    requires reader.Valid()
    modifies reader
    ensures var d := LogsOf(old(reader.Rest()), reader.broken, framedContentType);
            err == d.err && logs == if d.err == NoLogError then d.out else []
  {
    var multiplexed := framedContentType;
    if !multiplexed {
      multiplexed := DetectDockerMultiplexedStream(reader);
    }
    var builder := new Builder();
    err := DecodeDockerLogStream(reader, builder, multiplexed);
    logs := if err == NoLogError then builder.content else [];
  }

  // ---------------------------------------------------------------------------------------------
  // Properties
  // ---------------------------------------------------------------------------------------------

  /** Whatever the bytes are, the decoder writes a prefix of the payloads and stays within the limit;
      it writes all of them exactly when every frame fits. */
  lemma {:induction false} DecodeIsBoundedPrefix(s: seq<byte>, broken: bool, total: nat)
    requires total <= 5_242_880
    ensures var out := Decode(s, broken, total).out;
            out <= Payload(s) && total + |out| <= 5_242_880 && (out == Payload(s) <==> Fits(s, total))
    decreases |s|
  {
    if |s| >= HEADER_SIZE {
      var n, rest := FrameLength(s), s[HEADER_SIZE..];
      if n == 0 {
        DecodeIsBoundedPrefix(rest, broken, total);
        assert rest[..n] + Payload(rest[n..]) == Payload(rest);
      } else if n <= 1_048_576 && total + n <= 5_242_880 && |rest| >= n {
        DecodeIsBoundedPrefix(rest[n..], broken, total + n);
      }
    }
  }

  /** Reference for a stream of whole frames: copy frames until one breaks a limit. */
  function Admitted(frames: seq<Frame>, broken: bool, total: nat): Decoded {
    if frames == [] then Decoded([], if broken then ReadFailed else NoLogError)
    else
      var n := |frames[0].payload|;
      if n > 1_048_576 then Decoded([], FrameTooLarge(n))
      else if n > 0 && total + n > 5_242_880 then Decoded([], NoLogError)
      else
        var d := Admitted(frames[1..], broken, total + n);
        Decoded(frames[0].payload + d.out, d.err)
  }

  lemma HeaderOf(f: Frame, rest: seq<byte>)
    requires |f.payload| < 0x1_0000_0000
    ensures var s := Header(f) + rest;
            && |s| == HEADER_SIZE + |rest|
            && s[0] == f.kind && s[1] == s[2] == s[3] == 0
            && FrameLength(s) == |f.payload|
            && s[HEADER_SIZE..] == rest
  {
    hide BigEndian, LengthBytes;
    var s := Header(f) + rest;
    assert s[4..8] == LengthBytes(|f.payload|);
  }

  lemma EncodedHead(frames: seq<Frame>)
    requires frames != [] && Encodable(frames)
    ensures Encode(frames) == Header(frames[0]) + (frames[0].payload + Encode(frames[1..]))
  {
    hide LengthBytes;
  }

  /** One turn of the decoding loop over a whole frame. */
  lemma DecodeFrame(s: seq<byte>, f: Frame, tail: seq<byte>, broken: bool, total: nat)
    requires |f.payload| < 0x1_0000_0000 && s == Header(f) + (f.payload + tail)
    ensures var n := |f.payload|;
            Decode(s, broken, total) ==
            if n > 1_048_576 then Decoded([], FrameTooLarge(n))
            else if n > 0 && total + n > 5_242_880 then Decoded([], NoLogError)
            else Decoded(f.payload + Decode(tail, broken, total + n).out, Decode(tail, broken, total + n).err)
  {
    hide FrameLength, Header;
    var rest := f.payload + tail;
    HeaderOf(f, rest);
    assert rest[..|f.payload|] == f.payload && rest[|f.payload|..] == tail;
    if f.payload == [] {
      assert rest == tail;
    }
  }

  /** The decoder undoes the encoder, frame by frame, up to the first frame over a limit. */
  lemma {:induction false} DecodeOfEncode(frames: seq<Frame>, broken: bool, total: nat)
    requires Encodable(frames)
    ensures Decode(Encode(frames), broken, total) == Admitted(frames, broken, total)
    decreases |frames|
  {
    hide Decode, Encode, Header;
    if frames == [] {
      DecodeNothing(broken, total);
    } else {
      var n, tail := |frames[0].payload|, frames[1..];
      EncodedHead(frames);
      DecodeFrame(Encode(frames), frames[0], Encode(tail), broken, total);
      if n <= 1_048_576 && (n == 0 || total + n <= 5_242_880) {
        DecodeOfEncode(tail, broken, total + n);
        assert Admitted(frames, broken, total) ==
               Decoded(frames[0].payload + Admitted(tail, broken, total + n).out, Admitted(tail, broken, total + n).err);
      }
    }
  }

  lemma DecodeNothing(broken: bool, total: nat)
    ensures Decode(Encode([]), broken, total) == Decoded([], if broken then ReadFailed else NoLogError)
  {
    assert Encode([]) == [];
  }

  lemma {:induction false} AdmittedAll(frames: seq<Frame>, broken: bool, total: nat)
    requires WithinFrameLimit(frames)
    requires total + |Concat(frames)| <= 5_242_880
    ensures Admitted(frames, broken, total) == Decoded(Concat(frames), if broken then ReadFailed else NoLogError)
    decreases |frames|
  {
    if frames != [] {
      AdmittedAll(frames[1..], broken, total + |frames[0].payload|);
    }
  }

  /** Round trip: frames of at most 1 MiB (1048576 bytes), 5 MiB (5242880 bytes) in total, come back whole. */
  lemma RoundTrip(frames: seq<Frame>)
    requires WithinFrameLimit(frames)
    requires |Concat(frames)| <= 5_242_880
    ensures Decode(Encode(frames), false, 0) == Decoded(Concat(frames), NoLogError)
  {
    DecodeOfEncode(frames, false, 0);
    AdmittedAll(frames, false, 0);
  }

  /** An encoded stream is recognised exactly when its first frame is standard output or standard
      error and within the frame limit. */
  lemma EncodedIsRecognised(frames: seq<Frame>)
    requires frames != [] && Encodable(frames)
    ensures LooksMultiplexed(Encode(frames)) <==> frames[0].kind in {1, 2} && |frames[0].payload| <= 1_048_576
  {
    EncodedHead(frames);
    HeaderOf(frames[0], frames[0].payload + Encode(frames[1..]));
  }

  /** What a header says: the stream it belongs to and the length of the payload, most significant byte first. */
  lemma HeaderBytes(f: Frame)
    requires |f.payload| < 0x1_0000_0000
    ensures var h := Header(f);
            && |h| == 8 && h[..4] == [f.kind, 0, 0, 0]
            && |f.payload| == 16_777_216 * h[4] as nat + 65_536 * h[5] as nat + 256 * h[6] as nat + h[7] as nat
  {
    var b := LengthBytes(|f.payload|);
    assert Header(f)[4..8] == b;
  }

  /** Bytes of the start of a stream that make it a multiplexed one. */
  predicate StartsFrame(s: seq<byte>) {
    && |s| >= 8 && (s[0] == 1 || s[0] == 2) && s[1..4] == [0, 0, 0]
    && 16_777_216 * s[4] as nat + 65_536 * s[5] as nat + 256 * s[6] as nat + s[7] as nat <= 1_048_576
  }

  /** A stream without the content type that does not start a frame is shown as it is, up to 5 MiB; that it broke off is
      an error only below that. One that does start a frame is decoded as if it had the content type. */
  lemma PlainLogs(s: seq<byte>, broken: bool)
    ensures if StartsFrame(s) then LogsOf(s, broken, false) == LogsOf(s, broken, true)
            else var d := LogsOf(s, broken, false);
                 && d.out <= s && (d.out == s <==> |s| <= 5_242_880) && (|s| > 5_242_880 ==> |d.out| == 5_242_880)
                 && d.err == if broken && |s| < 5_242_880 then ReadFailed else NoLogError
  {
    hide Decode;
    if |s| >= 8 {
      assert s[4..8] == [s[4], s[5], s[6], s[7]];
      assert s[1..4] == [s[1], s[2], s[3]];
    }
  }

  /** So with or without the content type, such a stream is shown whole. */
  lemma LogsRoundTrip(frames: seq<Frame>, framedContentType: bool)
    requires frames != [] && WithinFrameLimit(frames)
    requires |Concat(frames)| <= 5_242_880
    requires framedContentType || frames[0].kind in {1, 2}
    ensures LogsOf(Encode(frames), false, framedContentType) == Decoded(Concat(frames), NoLogError)
  {
    EncodedIsRecognised(frames);
    RoundTrip(frames);
  }
}
