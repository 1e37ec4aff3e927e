/**
 The AMR file format of section 5 of RFC 4867: an optional magic string, then
 one octet-aligned frame after another.
 */
module AMRStorage {
  import opened AMR
  import opened BitStrings

  datatype Storage = Storage(codec: Codec, frames: seq<Frame>, includeHeader: bool)

  const MAGIC: seq<bv8> := [0x23, 0x21, 0x41, 0x4D, 0x52, 0x0A]
  const WB_MAGIC: seq<bv8> := [0x23, 0x21, 0x41, 0x4D, 0x52, 0x2D, 0x57, 0x42, 0x0A]

  function Magic(codec: Codec): seq<bv8> {
    if codec == CodecAMRWB then WB_MAGIC else MAGIC
  }

  // ----- frame headers -----

  function HeaderByte(f: Frame): bv8 {
    (((f.frameType % 16) as bv8) << 3) | (if f.quality then 0x04 else 0)
  }

  function TypeOf(header: bv8): int {
    ((header >> 3) & 0x0f) as int
  }

  predicate QualityOf(header: bv8) {
    header & 0x04 != 0
  }

  lemma HeaderRoundTrip(f: Frame)
    requires 0 <= f.frameType < 16
    ensures TypeOf(HeaderByte(f)) == f.frameType && QualityOf(HeaderByte(f)) == f.quality
    ensures HeaderByte(f) != 0x23 && HeaderByte(f) & 0x83 == 0
  {
    assert f.frameType in {0, 1, 2, 3, 4, 5, 6, 7, 8, 9, 10, 11, 12, 13, 14, 15};
  }

  /** The type stands in bits 1 to 4 of the octet, the quality in bit 5. */
  lemma HeaderFields(header: bv8)
    ensures TypeOf(header) == (if Bit(header, 1) then 8 else 0) + (if Bit(header, 2) then 4 else 0) +
      (if Bit(header, 3) then 2 else 0) + (if Bit(header, 4) then 1 else 0)
    ensures QualityOf(header) == Bit(header, 5)
  {
    var t := (header >> 3) & 0x0f;
    assert t in {0, 1, 2, 3, 4, 5, 6, 7, 8, 9, 10, 11, 12, 13, 14, 15};
  }

  // ----- what a file is -----

  function FrameOctets(f: Frame): seq<bv8> {
    [HeaderByte(f)] + f.data
  }

  function FramesOctets(frames: seq<Frame>): seq<bv8> {
    if frames == [] then [] else FrameOctets(frames[0]) + FramesOctets(frames[1..])
  }

  function FileOctets(s: Storage): seq<bv8> {
    (if s.includeHeader then Magic(s.codec) else []) + FramesOctets(s.frames)
  }

  lemma FrameFaultByBytes(codec: Codec, f: Frame)
    ensures FrameFault(codec, f) ==
      if FrameBytes(codec, f.frameType) < 0 then [FrameTypeUnsupported]
      else if |f.data| != FrameBytes(codec, f.frameType) then [FrameSizeMismatch] else []
  {
    TablesAgree(codec, f.frameType);
  }

  /** Without a codec there is nothing to write but the empty file. */
  method Marshal(s: Storage) returns (r: Result<seq<bv8>>)
    ensures s.codec == NoCodec && (s.frames != [] || s.includeHeader) ==> r == Err(StorageHeaderMissing)
    ensures s.codec == NoCodec && s.frames == [] && !s.includeHeader ==> r == Ok([])
    ensures s.codec != NoCodec ==>
      r == if Faults(s.codec, s.frames) == [] then Ok(FileOctets(s)) else Err(Faults(s.codec, s.frames)[0])
  {
    if s.codec == NoCodec && (|s.frames| > 0 || s.includeHeader) {
      return Err(StorageHeaderMissing);
    }
    var out := if s.includeHeader then Magic(s.codec) else [];
    ghost var whole := FileOctets(s);
    for i := 0 to |s.frames|
      invariant Faults(s.codec, s.frames[..i]) == []
      invariant out + FramesOctets(s.frames[i..]) == whole
    {
      var frame := s.frames[i];
      FaultAt(s.codec, s.frames, i);
      FrameFaultByBytes(s.codec, frame);
      var want := FrameBytes(s.codec, frame.frameType);
      if want < 0 {
        return Err(FrameTypeUnsupported);
      }
      if |frame.data| != want {
        return Err(FrameSizeMismatch);
      }
      assert s.frames[i..][0] == frame && s.frames[i..][1..] == s.frames[i + 1..];
      Join(out, FrameOctets(frame), FramesOctets(s.frames[i + 1..]));
      out := out + FrameOctets(frame);
    }
    assert s.frames[..|s.frames|] == s.frames && out + [] == out;
    r := Ok(out);
  }

  lemma Join(a: seq<bv8>, b: seq<bv8>, c: seq<bv8>)
    ensures a + b + c == a + (b + c)
  {
  }

  // ----- reading -----

  predicate StartsWith(data: seq<bv8>, prefix: seq<bv8>) {
    prefix <= data
  }

  /** The codec of the file and the length of its magic string; without one, the expected codec. */
  function Detected(expected: Codec, data: seq<bv8>): Result<(Codec, nat)> {
    if StartsWith(data, MAGIC) then Ok((CodecAMR, |MAGIC|))
    else if StartsWith(data, WB_MAGIC) then Ok((CodecAMRWB, |WB_MAGIC|))
    else if expected != NoCodec then Ok((expected, 0))
    else Err(StorageHeaderMissing)
  }

  /** The frame at an offset and where it ends. */
  function NextFrame(codec: Codec, data: seq<bv8>, offset: nat): (r: Result<(Frame, nat)>)
    requires offset < |data|
    ensures r.Ok? ==> offset < r.value.1 <= |data|
  {
    var size := FrameBytes(codec, TypeOf(data[offset]));
    if size < 0 then Err(FrameTypeUnsupported)
    else if |data| - offset < 1 + size then Err(SpeechDataTruncated)
    else
      var end := offset + 1 + size;
      Ok((Frame(TypeOf(data[offset]), QualityOf(data[offset]), data[offset + 1..end]), end))
  }

  function FramesIn(codec: Codec, data: seq<bv8>): Result<seq<Frame>>
    decreases |data|
  {
    if data == [] then Ok([]) else
      var next := NextFrame(codec, data, 0);
      if next.Err? then Err(next.error)
      else match FramesIn(codec, data[next.value.1..])
        case Ok(frames) => Ok([next.value.0] + frames)
        case Err(e) => Err(e)
  }

  function FileIn(expected: Codec, data: seq<bv8>): Result<Storage> {
    match Detected(expected, data)
    case Err(e) => Err(e)
    case Ok((codec, offset)) =>
      match FramesIn(codec, data[offset..])
      case Ok(frames) => Ok(Storage(codec, frames, offset > 0))
      case Err(e) => Err(e)
  }

  // ----- what stands where in any file -----

  /** The data is a frame after the other, whatever the unused bits of their headers are. */
  ghost predicate FramesStand(codec: Codec, data: seq<bv8>, frames: seq<Frame>)
    decreases |frames|
  {
    if frames == [] then data == [] else
      var size := FrameBytes(codec, frames[0].frameType);
      && 0 <= size < |data|
      && TypeOf(data[0]) == frames[0].frameType && QualityOf(data[0]) == frames[0].quality
      && frames[0].data == data[1..1 + size]
      && FramesStand(codec, data[1 + size..], frames[1..])
  }

  /** Frames stand at the front, and behind them a header of the size; a negative one is of no type of the codec. */
  ghost predicate StopsAt(codec: Codec, data: seq<bv8>, frames: seq<Frame>, n: nat, size: int) {
    n < |data| && FramesStand(codec, data[..n], frames) && FrameBytes(codec, TypeOf(data[n])) == size
  }

  ghost predicate IsStopFor(e: AmrError, data: seq<bv8>, n: nat, size: int) {
    if size < 0 then e == FrameTypeUnsupported else e == SpeechDataTruncated && n + size >= |data|
  }

  /** r is what the data says: frames to its end, or what is wrong with the first octets that are none. */
  ghost predicate IsReading(codec: Codec, data: seq<bv8>, r: Result<seq<Frame>>) {
    match r
    case Ok(frames) => FramesStand(codec, data, frames)
    case Err(e) =>
      exists frames, n: nat, size :: StopsAt(codec, data, frames, n, size) && IsStopFor(e, data, n, size)
  }

  /**
   As the whole file says it: a magic string decides about the codec, else the
   expected one holds, if there is any.
   */
  ghost predicate IsFileReading(expected: Codec, data: seq<bv8>, r: Result<Storage>) {
    if StartsWith(data, MAGIC) then IsRestReading(CodecAMR, true, data[6..], r)
    else if StartsWith(data, WB_MAGIC) then IsRestReading(CodecAMRWB, true, data[9..], r)
    else if expected == NoCodec then r == Err(StorageHeaderMissing)
    else IsRestReading(expected, false, data, r)
  }

  ghost predicate IsRestReading(codec: Codec, includeHeader: bool, data: seq<bv8>, r: Result<Storage>) {
    match r
    case Ok(s) => s.codec == codec && s.includeHeader == includeHeader && IsReading(codec, data, Ok(s.frames))
    case Err(e) => IsReading(codec, data, Err(e))
  }

  lemma StandsBehind(codec: Codec, data: seq<bv8>, f: Frame, frames: seq<Frame>, size: nat)
    requires 0 <= size == FrameBytes(codec, f.frameType) < |data|
    requires TypeOf(data[0]) == f.frameType && QualityOf(data[0]) == f.quality && f.data == data[1..1 + size]
    requires FramesStand(codec, data[1 + size..], frames)
    ensures FramesStand(codec, data, [f] + frames)
  {
    assert ([f] + frames)[1..] == frames;
  }

  lemma StopsBehind(codec: Codec, data: seq<bv8>, f: Frame, frames: seq<Frame>, size: nat, n: nat, last: int)
    requires 0 <= size == FrameBytes(codec, f.frameType) < |data|
    requires TypeOf(data[0]) == f.frameType && QualityOf(data[0]) == f.quality && f.data == data[1..1 + size]
    requires StopsAt(codec, data[1 + size..], frames, n, last)
    ensures StopsAt(codec, data, [f] + frames, 1 + size + n, last)
  {
    var front := data[..1 + size + n];
    assert front[1 + size..] == data[1 + size..][..n] && front[1..1 + size] == data[1..1 + size];
    StandsBehind(codec, front, f, frames, size);
  }

  lemma ReadingBehind(codec: Codec, data: seq<bv8>, f: Frame, size: nat, rest: Result<seq<Frame>>)
    requires 0 <= size == FrameBytes(codec, f.frameType) < |data|
    requires TypeOf(data[0]) == f.frameType && QualityOf(data[0]) == f.quality && f.data == data[1..1 + size]
    requires IsReading(codec, data[1 + size..], rest)
    ensures IsReading(codec, data, PrependedFrames([f], rest))
  {
    match rest
    case Ok(frames) => StandsBehind(codec, data, f, frames, size);
    case Err(e) =>
      var frames, n: nat, last :|
        StopsAt(codec, data[1 + size..], frames, n, last) && IsStopFor(e, data[1 + size..], n, last);
      StopsBehind(codec, data, f, frames, size, n, last);
      assert IsStopFor(e, data, 1 + size + n, last);
  }

  lemma {:induction false} FramesRead(codec: Codec, data: seq<bv8>)
    ensures IsReading(codec, data, FramesIn(codec, data))
    decreases |data|
  {
    if data != [] {
      var next := NextFrame(codec, data, 0);
      if next.Err? {
        assert FramesStand(codec, data[..0], []);
        var size := FrameBytes(codec, TypeOf(data[0]));
        assert StopsAt(codec, data, [], 0, size) && IsStopFor(next.error, data, 0, size);
      } else {
        var (f, end) := next.value;
        FramesRead(codec, data[end..]);
        ReadingBehind(codec, data, f, end - 1, FramesIn(codec, data[end..]));
      }
    }
  }

  lemma {:induction false} StandingIsRead(codec: Codec, data: seq<bv8>, frames: seq<Frame>)
    requires FramesStand(codec, data, frames)
    ensures FramesIn(codec, data) == Ok(frames)
    decreases |frames|
  {
    if frames != [] {
      StandingIsRead(codec, data[1 + FrameBytes(codec, frames[0].frameType)..], frames[1..]);
      assert frames == [frames[0]] + frames[1..];
    }
  }

  lemma {:induction false} StopIsRead(codec: Codec, data: seq<bv8>, frames: seq<Frame>, n: nat, size: int)
    requires StopsAt(codec, data, frames, n, size)
    ensures size < 0 ==> FramesIn(codec, data) == Err(FrameTypeUnsupported)
    ensures size >= 0 && n + size >= |data| ==> FramesIn(codec, data) == Err(SpeechDataTruncated)
    decreases |frames|
  {
    if frames != [] {
      var end := 1 + FrameBytes(codec, frames[0].frameType);
      assert data[..n][end..] == data[end..][..n - end] && data[..n][1..end] == data[1..end];
      StopIsRead(codec, data[end..], frames[1..], n - end, size);
    }
  }

  /** A file says one thing only, and that is what is read. */
  lemma FileRead(expected: Codec, data: seq<bv8>, r: Result<Storage>)
    ensures IsFileReading(expected, data, r) <==> r == FileIn(expected, data)
  {
    var detected := Detected(expected, data);
    if detected.Ok? {
      var (codec, offset) := detected.value;
      assert data[0..] == data;
      RestRead(codec, data[offset..], offset > 0, r);
    }
  }

  lemma RestRead(codec: Codec, rest: seq<bv8>, header: bool, r: Result<Storage>)
    ensures IsRestReading(codec, header, rest, r) <==>
      r == match FramesIn(codec, rest)
           case Ok(frames) => Ok(Storage(codec, frames, header))
           case Err(e) => Err(e)
  {
    FramesRead(codec, rest);
    match r
    case Ok(s) =>
      if FramesStand(codec, rest, s.frames) { StandingIsRead(codec, rest, s.frames); }
    case Err(e) =>
      if frames, n: nat, size :| StopsAt(codec, rest, frames, n, size) && IsStopFor(e, rest, n, size) {
        StopIsRead(codec, rest, frames, n, size);
      }
  }

  // ----- the methods -----

  /** One frame of the file, at an offset. */
  method FrameAt(codec: Codec, data: seq<bv8>, offset: nat) returns (r: Result<(Frame, nat)>)
    requires offset < |data|
    ensures r == NextFrame(codec, data, offset)
  {
    var header := data[offset];
    var size := FrameBytes(codec, TypeOf(header));
    if size < 0 {
      return Err(FrameTypeUnsupported);
    }
    var end := offset + 1 + size;
    if end > |data| {
      return Err(SpeechDataTruncated);
    }
    return Ok((Frame(TypeOf(header), QualityOf(header), data[offset + 1..end]), end));
  }

  lemma Dropped(data: seq<bv8>, offset: nat, k: nat)
    requires offset + 1 + k <= |data|
    ensures data[offset..][1..1 + k] == data[offset + 1..offset + 1 + k]
    ensures data[offset..][1 + k..] == data[offset + 1 + k..]
  {
  }

  lemma FramesStep(codec: Codec, frames: seq<Frame>, data: seq<bv8>)
    requires data != []
    ensures PrependedFrames(frames, FramesIn(codec, data)) ==
      var next := NextFrame(codec, data, 0);
      if next.Err? then Err(next.error)
      else PrependedFrames(frames + [next.value.0], FramesIn(codec, data[next.value.1..]))
  {
    var next := NextFrame(codec, data, 0);
    if next.Ok? {
      var rec := FramesIn(codec, data[next.value.1..]);
      if rec.Ok? {
        assert frames + ([next.value.0] + rec.value) == frames + [next.value.0] + rec.value;
      }
    }
  }

  lemma NextFrameFrom(codec: Codec, data: seq<bv8>, offset: nat)
    requires offset < |data|
    ensures var here, there := NextFrame(codec, data, offset), NextFrame(codec, data[offset..], 0);
      if here.Err? then there == here
      else (
        && there == Ok((here.value.0, here.value.1 - offset))
        && data[offset..][here.value.1 - offset..] == data[here.value.1..])
  {
    var size := FrameBytes(codec, TypeOf(data[offset]));
    assert data[offset..][0] == data[offset];
    if 0 <= size && offset + 1 + size <= |data| { Dropped(data, offset, size); }
  }

  lemma FramesStepAt(codec: Codec, frames: seq<Frame>, data: seq<bv8>, offset: nat)
    requires offset < |data|
    ensures PrependedFrames(frames, FramesIn(codec, data[offset..])) ==
      var next := NextFrame(codec, data, offset);
      if next.Err? then Err(next.error)
      else PrependedFrames(frames + [next.value.0], FramesIn(codec, data[next.value.1..]))
  {
    NextFrameFrom(codec, data, offset);
    FramesStep(codec, frames, data[offset..]);
  }

  method FramesFrom(codec: Codec, data: seq<bv8>, start: nat) returns (r: Result<seq<Frame>>)
    requires start <= |data|
    ensures r == FramesIn(codec, data[start..])
  {
    var frames: seq<Frame>, offset := [], start;
    ghost var whole := FramesIn(codec, data[start..]);
    assert whole.Ok? ==> [] + whole.value == whole.value;
    while offset < |data|
      invariant offset <= |data|
      invariant PrependedFrames(frames, FramesIn(codec, data[offset..])) == whole
    {
      FramesStepAt(codec, frames, data, offset);
      var frame := FrameAt(codec, data, offset);
      if frame.Err? {
        return Err(frame.error);
      }
      frames, offset := frames + [frame.value.0], frame.value.1;
    }
    assert frames + [] == frames;
    r := Ok(frames);
  }

  /** By offset into the whole file. */
  method Unmarshal(expected: Codec, data: seq<bv8>) returns (r: Result<Storage>)
    ensures r == FileIn(expected, data) && IsFileReading(expected, data, r)
  {
    FileRead(expected, data, FileIn(expected, data));
    var detected := Detected(expected, data);
    if detected.Err? {
      return Err(detected.error);
    }
    var (codec, offset) := detected.value;
    var frames := FramesFrom(codec, data, offset);
    match frames
    case Err(e) => r := Err(e);
    case Ok(fs) => r := Ok(Storage(codec, fs, offset > 0));
  }

  /** A buffered reader over a byte string. */
  class ByteReader {
    var left: seq<bv8>

    constructor (data: seq<bv8>)
      ensures left == data
    {
      left := data;
    }

    /** The next n bytes, or as many as there are, without consuming them. */
    method Peek(n: nat) returns (data: seq<bv8>)
      ensures data == if n <= |left| then left[..n] else left
    {
      data := if n <= |left| then left[..n] else left;
    }

    method Discard(n: nat)
      requires n <= |left|
      modifies this
      ensures left == old(left)[n..]
    {
      left := left[n..];
    }

    method ReadByte() returns (b: bv8, eof: bool)
      modifies this
      ensures eof == (old(left) == [])
      ensures !eof ==> b == old(left)[0] && left == old(left)[1..]
      ensures eof ==> left == old(left)
    {
      eof := |left| == 0;
      b := 0;
      if !eof {
        b, left := left[0], left[1..];
      }
    }

    /** Exactly n bytes, or an error. */
    method ReadFull(n: nat) returns (data: seq<bv8>, ok: bool)
      modifies this
      ensures ok == (n <= |old(left)|)
      ensures ok ==> data == old(left)[..n] && left == old(left)[n..]
    {
      ok := n <= |left|;
      data := if ok then left[..n] else left;
      left := left[|data|..];
    }
  }

  method HasBufferedPrefix(reader: ByteReader, prefix: seq<bv8>) returns (found: bool)
    ensures found == StartsWith(reader.left, prefix)
  {
    var data := reader.Peek(|prefix|);
    found := StartsWith(data, prefix);
  }

  /** Looks for the longer magic string first. */
  method ReadHeader(reader: ByteReader, expected: Codec) returns (r: Result<(Codec, bool)>)
    modifies reader
    ensures match Detected(expected, old(reader.left))
      case Ok((codec, offset)) => r == Ok((codec, offset > 0)) && reader.left == old(reader.left)[offset..]
      case Err(e) => r == Err(e)
  {
    OneMagic(reader.left);
    var wide := HasBufferedPrefix(reader, WB_MAGIC);
    if wide {
      reader.Discard(|WB_MAGIC|);
      return Ok((CodecAMRWB, true));
    }
    var narrow := HasBufferedPrefix(reader, MAGIC);
    if narrow {
      reader.Discard(|MAGIC|);
      return Ok((CodecAMR, true));
    }
    if expected != NoCodec {
      return Ok((expected, false));
    }
    return Err(StorageHeaderMissing);
  }

  lemma OneMagic(data: seq<bv8>)
    ensures !(StartsWith(data, MAGIC) && StartsWith(data, WB_MAGIC))
  {
    assert MAGIC[5] != WB_MAGIC[5];
  }

  /** Frame by frame from a stream: the same result as Unmarshal on every byte string. */
  method ReadFrom(expected: Codec, data: seq<bv8>) returns (r: Result<Storage>)
    ensures r == FileIn(expected, data)
  {
    var reader := new ByteReader(data);
    var detected := ReadHeader(reader, expected);
    if detected.Err? {
      return Err(detected.error);
    }
    var (codec, includeHeader) := detected.value;
    var frames: seq<Frame> := [];
    ghost var whole := FramesIn(codec, reader.left);
    assert whole.Ok? ==> [] + whole.value == whole.value;
    while true
      invariant PrependedFrames(frames, FramesIn(codec, reader.left)) == whole
      decreases |reader.left|
    {
      ghost var rest := reader.left;
      var header, eof := reader.ReadByte();
      if eof {
        break;
      }
      FramesStep(codec, frames, rest);
      var size := FrameBytes(codec, TypeOf(header));
      if size < 0 {
        return Err(FrameTypeUnsupported);
      }
      var speech, ok := reader.ReadFull(size);
      if !ok {
        return Err(SpeechDataTruncated);
      }
      assert rest[1..][..size] == rest[1..1 + size] && rest[1..][size..] == rest[1 + size..];
      frames := frames + [Frame(TypeOf(header), QualityOf(header), speech)];
    }
    assert frames + [] == frames;
    r := Ok(Storage(codec, frames, includeHeader));
  }

  // ----- the round trip -----

  lemma {:induction false} FramesRoundTrip(codec: Codec, frames: seq<Frame>)
    requires Faults(codec, frames) == []
    ensures FramesIn(codec, FramesOctets(frames)) == Ok(frames)
  {
    if frames != [] {
      var f, rest := frames[0], FramesOctets(frames[1..]);
      TablesAgree(codec, f.frameType);
      HeaderRoundTrip(f);
      FramesRoundTrip(codec, frames[1..]);
      var data := FrameOctets(f) + rest;
      assert data[1..1 + |f.data|] == f.data && data[1 + |f.data|..] == rest;
      assert frames == [f] + frames[1..];
    }
  }

  /**
   Reading a written file gives it back: whatever codec is expected if the
   magic string is written, and under its own codec if it is not, because no
   frame header looks like the start of a magic string.
   */
  lemma StorageRoundTrip(s: Storage, expected: Codec)
    requires s.codec != NoCodec && Faults(s.codec, s.frames) == []
    requires s.includeHeader || expected == s.codec
    ensures FileIn(expected, FileOctets(s)) == Ok(s)
  {
    var data := FileOctets(s);
    FramesRoundTrip(s.codec, s.frames);
    OneMagic(data);
    if s.includeHeader {
      assert Magic(s.codec) <= data && data[|Magic(s.codec)|..] == FramesOctets(s.frames);
    } else {
      assert data == FramesOctets(s.frames);
      if s.frames != [] {
        HeaderRoundTrip(s.frames[0]);
        assert data[0] == HeaderByte(s.frames[0]) != MAGIC[0];
      }
      assert data[0..] == data;
    }
  }
}
