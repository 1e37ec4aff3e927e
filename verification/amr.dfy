/** AMR and AMR-WB speech frames, and the bandwidth-efficient payload of section 4.3 of RFC 4867. */
module AMR {
  import opened BitStrings

  datatype Codec = CodecAMR | CodecAMRWB | NoCodec

  datatype Frame = Frame(frameType: int, quality: bool, data: seq<bv8>)

  datatype AmrError =
    | PayloadShort
    | PayloadTruncated
    | TocTruncated
    | SpeechDataTruncated
    | FrameTypeUnsupported
    | FrameSizeMismatch
    | FramesRequired
    | StorageHeaderMissing

  datatype Result<+T> = Ok(value: T) | Err(error: AmrError)

  const FRAME_BITS: seq<int> := [95, 103, 118, 134, 148, 159, 204, 244, 39]
  const WB_FRAME_BITS: seq<int> := [132, 177, 253, 285, 317, 365, 397, 461, 477, 40]
  const FRAME_BYTES: seq<int> := [12, 13, 15, 17, 19, 20, 26, 31, 5]
  const WB_FRAME_BYTES: seq<int> := [17, 23, 32, 36, 40, 46, 50, 58, 60, 5]
  const NO_MODE_REQUEST := 15

  /** Speech bits of a frame type, -1 if the codec has no such type. */
  function FrameBitCount(codec: Codec, frameType: int): (n: int)
    ensures n >= 0 ==> 0 <= frameType < 16
    ensures n >= -1
  {
    if frameType == 15 || (codec == CodecAMRWB && frameType == 14) then 0
    else match codec
      case CodecAMR => if 0 <= frameType < |FRAME_BITS| then FRAME_BITS[frameType] else -1
      case CodecAMRWB => if 0 <= frameType < |WB_FRAME_BITS| then WB_FRAME_BITS[frameType] else -1
      case NoCodec => -1
  }

  function FrameBytes(codec: Codec, frameType: int): (n: int)
    ensures n >= 0 ==> 0 <= frameType < 16
    ensures n >= -1
  {
    if frameType == 15 || (codec == CodecAMRWB && frameType == 14) then 0
    else match codec
      case CodecAMR => if 0 <= frameType < |FRAME_BYTES| then FRAME_BYTES[frameType] else -1
      case CodecAMRWB => if 0 <= frameType < |WB_FRAME_BYTES| then WB_FRAME_BYTES[frameType] else -1
      case NoCodec => -1
  }

  /** The two size tables agree. */
  lemma TablesAgree(codec: Codec, frameType: int)
    ensures FrameBytes(codec, frameType) == -1 <==> FrameBitCount(codec, frameType) == -1
    ensures FrameBitCount(codec, frameType) >= 0 ==>
      FrameBytes(codec, frameType) == BytesFor(FrameBitCount(codec, frameType))
  {
    if 0 <= frameType < 16 {
      assert frameType in {0, 1, 2, 3, 4, 5, 6, 7, 8, 9, 10, 11, 12, 13, 14, 15};
    }
  }

  /** The bit rates of the speech modes, in bits per second. */
  const RATES := [4750, 5150, 5900, 6700, 7400, 7950, 10200, 12200]
  const WB_RATES := [6600, 8850, 12650, 14250, 15850, 18250, 19850, 23050, 23850]

  /** A speech frame has the bits of 20 milliseconds at its mode's rate. */
  lemma FrameHasItsRate(frameType: nat)
    ensures frameType < 8 ==> FrameBitCount(CodecAMR, frameType) * 50 == RATES[frameType]
    ensures frameType < 9 ==> FrameBitCount(CodecAMRWB, frameType) * 50 == WB_RATES[frameType]
  {
    if frameType < 9 {
      assert frameType in {0, 1, 2, 3, 4, 5, 6, 7, 8};
    }
  }

  // ----- what a payload is -----

  /** Why a frame cannot be marshalled. */
  function FrameFault(codec: Codec, f: Frame): seq<AmrError> {
    var bits := FrameBitCount(codec, f.frameType);
    if bits < 0 then [FrameTypeUnsupported]
    else if |f.data| != BytesFor(bits) then [FrameSizeMismatch]
    else []
  }

  /** The faults of all frames, first frame first. */
  function Faults(codec: Codec, frames: seq<Frame>): seq<AmrError> {
    if frames == [] then [] else FrameFault(codec, frames[0]) + Faults(codec, frames[1..])
  }

  /** The codec has the type, and the data is as many bytes as its bits need. */
  predicate IsGood(codec: Codec, f: Frame) {
    var bits := FrameBitCount(codec, f.frameType);
    bits >= 0 && |f.data| == (bits + 7) / 8
  }

  /** The error is about the first frame that is not good: its type, if the codec has not got it, else its size. */
  lemma {:induction false} FirstFault(codec: Codec, frames: seq<Frame>) returns (i: nat)
    ensures i <= |frames| && forall k :: 0 <= k < i ==> IsGood(codec, frames[k])
    ensures Faults(codec, frames) == [] <==> i == |frames|
    ensures i < |frames| ==>
      && !IsGood(codec, frames[i]) && Faults(codec, frames) != []
      && Faults(codec, frames)[0] ==
         if FrameBitCount(codec, frames[i].frameType) < 0 then FrameTypeUnsupported else FrameSizeMismatch
    decreases |frames|
  {
    if frames == [] || !IsGood(codec, frames[0]) {
      return 0;
    }
    var j := FirstFault(codec, frames[1..]);
    i := j + 1;
    assert forall k :: 0 < k < i ==> frames[k] == frames[1..][k - 1];
  }

  /** One table-of-contents entry per frame: more to come, type, quality. */
  function TocBits(frames: seq<Frame>): seq<bool> {
    if frames == [] then [] else
      [|frames| > 1] + NumberBits(frames[0].frameType % 16, 4) + [frames[0].quality] + TocBits(frames[1..])
  }

  function SpeechOf(codec: Codec, f: Frame): seq<bool>
    requires FrameFault(codec, f) == []
  {
    Bits(f.data)[..FrameBitCount(codec, f.frameType)]
  }

  function SpeechBits(codec: Codec, frames: seq<Frame>): seq<bool>
    requires Faults(codec, frames) == []
  {
    if frames == [] then [] else SpeechOf(codec, frames[0]) + SpeechBits(codec, frames[1..])
  }

  function PayloadBits(codec: Codec, frames: seq<Frame>): seq<bool>
    requires Faults(codec, frames) == []
  {
    NumberBits(NO_MODE_REQUEST, 4) + TocBits(frames) + SpeechBits(codec, frames)
  }

  // ----- marshalling -----

  lemma {:induction false} FaultAt(codec: Codec, frames: seq<Frame>, i: nat)
    requires i < |frames| && Faults(codec, frames[..i]) == []
    ensures Faults(codec, frames[..i + 1]) == FrameFault(codec, frames[i])
    ensures Faults(codec, frames) == FrameFault(codec, frames[i]) + Faults(codec, frames[i + 1..])
  {
    if i == 0 {
      assert frames[..1][1..] == [];
    } else {
      assert frames[..i][1..] == frames[1..][..i - 1] && frames[..i + 1][1..] == frames[1..][..i];
      FaultAt(codec, frames[1..], i - 1);
      assert frames[1..][i..] == frames[i + 1..];
    }
  }

  function TocEntry(f: Frame, more: bool): seq<bool> {
    [more] + NumberBits(f.frameType % 16, 4) + [f.quality]
  }

  lemma TocStep(start: seq<bool>, now: seq<bool>, frames: seq<Frame>, i: nat)
    requires i < |frames| && now + TocBits(frames[i..]) == start + TocBits(frames)
    ensures now + TocEntry(frames[i], i < |frames| - 1) + TocBits(frames[i + 1..]) == start + TocBits(frames)
  {
    TocHead(frames, i);
    Apart(now, TocEntry(frames[i], i < |frames| - 1), TocBits(frames[i + 1..]));
  }

  lemma TocHead(frames: seq<Frame>, i: nat)
    requires i < |frames|
    ensures TocBits(frames[i..]) == TocEntry(frames[i], i < |frames| - 1) + TocBits(frames[i + 1..])
  {
    var rest := frames[i..];
    assert rest[0] == frames[i] && rest[1..] == frames[i + 1..] && |rest| == |frames| - i;
  }

  lemma Apart(a: seq<bool>, b: seq<bool>, c: seq<bool>)
    ensures a + b + c == a + (b + c)
  {
  }

  lemma SpeechStep(codec: Codec, start: seq<bool>, now: seq<bool>, frames: seq<Frame>, i: nat)
    requires i < |frames| && Faults(codec, frames) == [] && Faults(codec, frames[i..]) == []
    requires now + SpeechBits(codec, frames[i..]) == start + SpeechBits(codec, frames)
    ensures FrameFault(codec, frames[i]) == [] && Faults(codec, frames[i + 1..]) == []
    ensures now + SpeechOf(codec, frames[i]) + SpeechBits(codec, frames[i + 1..]) == start + SpeechBits(codec, frames)
  {
    assert frames[i..][0] == frames[i] && frames[i..][1..] == frames[i + 1..];
    var speech, rest := SpeechOf(codec, frames[i]), SpeechBits(codec, frames[i + 1..]);
    assert now + speech + rest == now + (speech + rest);
  }

  method WriteTocEntry(f: Frame, more: bool, writer: BitWriter)
    requires writer.Valid()
    modifies writer
    ensures writer.Valid() && writer.written == old(writer.written) + TocEntry(f, more)
  {
    ghost var start := writer.written;
    writer.WriteBit(more);
    writer.WriteBits(f.frameType % 16, 4);
    writer.WriteBit(f.quality);
    Apart(start, [more], NumberBits(f.frameType % 16, 4));
    Apart(start, [more] + NumberBits(f.frameType % 16, 4), [f.quality]);
  }

  method WriteToc(codec: Codec, frames: seq<Frame>, writer: BitWriter) returns (faults: seq<AmrError>)
    requires writer.Valid()
    modifies writer
    ensures writer.Valid()
    ensures faults == [] ==> Faults(codec, frames) == [] && writer.written == old(writer.written) + TocBits(frames)
    ensures faults != [] ==> Faults(codec, frames) != [] && faults[0] == Faults(codec, frames)[0]
  {
    for i := 0 to |frames|
      invariant writer.Valid() && Faults(codec, frames[..i]) == []
      invariant writer.written + TocBits(frames[i..]) == old(writer.written) + TocBits(frames)
    {
      var frame := frames[i];
      FaultAt(codec, frames, i);
      var bits := FrameBitCount(codec, frame.frameType);
      if bits < 0 {
        return [FrameTypeUnsupported];
      }
      if |frame.data| != BytesFor(bits) {
        return [FrameSizeMismatch];
      }
      TocStep(old(writer.written), writer.written, frames, i);
      WriteTocEntry(frame, i < |frames| - 1, writer);
    }
    assert frames[..|frames|] == frames;
    faults := [];
  }

  method WriteSpeech(codec: Codec, frames: seq<Frame>, writer: BitWriter)
    requires writer.Valid() && Faults(codec, frames) == []
    modifies writer
    ensures writer.Valid() && writer.written == old(writer.written) + SpeechBits(codec, frames)
  {
    assert frames[0..] == frames;
    for i := 0 to |frames|
      invariant writer.Valid() && Faults(codec, frames[i..]) == []
      invariant writer.written + SpeechBits(codec, frames[i..]) == old(writer.written) + SpeechBits(codec, frames)
    {
      SpeechStep(codec, old(writer.written), writer.written, frames, i);
      writer.WriteBytes(frames[i].data, FrameBitCount(codec, frames[i].frameType));
    }
  }

  /** The error of the first faulty frame, or the payload's bits in as few bytes as possible. */
  method MarshalBandwidthEfficient(codec: Codec, frames: seq<Frame>) returns (r: Result<seq<bv8>>)
    ensures frames == [] ==> r == Err(FramesRequired)
    ensures frames != [] && Faults(codec, frames) != [] ==> r == Err(Faults(codec, frames)[0])
    ensures frames != [] && Faults(codec, frames) == [] ==> r.Ok? && Holds(r.value, PayloadBits(codec, frames))
  {
    if |frames| == 0 {
      return Err(FramesRequired);
    }
    var writer := new BitWriter();
    writer.WriteBits(NO_MODE_REQUEST, 4);
    assert writer.written == NumberBits(NO_MODE_REQUEST, 4);
    var faults := WriteToc(codec, frames, writer);
    if faults != [] {
      return Err(faults[0]);
    }
    WriteSpeech(codec, frames, writer);
    assert writer.written == PayloadBits(codec, frames);
    r := Ok(writer.data);
  }

  // ----- unmarshalling -----

  datatype Header = Header(frameType: nat, quality: bool)

  /** The table of contents and the bits after it. */
  function ReadToc(codec: Codec, bs: seq<bool>): Result<(seq<Header>, seq<bool>)> {
    if |bs| < 6 then Err(PayloadTruncated) else
      var header := Header(Number(bs[1..5]), bs[5]);
      if FrameBitCount(codec, header.frameType) < 0 then Err(FrameTypeUnsupported)
      else if !bs[0] then Ok(([header], bs[6..]))
      else match ReadToc(codec, bs[6..])
        case Ok((headers, rest)) => Ok(([header] + headers, rest))
        case Err(e) => Err(e)
  }

  function Packed(bs: seq<bool>): (data: seq<bv8>)
    ensures |data| == BytesFor(|bs|)
  {
    if bs == [] then [] else WithBit(Packed(bs[..|bs| - 1]), |bs| - 1, bs[|bs| - 1])
  }

  lemma {:induction false} PackedHolds(bs: seq<bool>)
    ensures Holds(Packed(bs), bs)
  {
    if bs != [] {
      var n := |bs| - 1;
      PackedHolds(bs[..n]);
      WithBitHolds(Packed(bs[..n]), bs[..n], bs[n]);
      assert bs == bs[..n] + [bs[n]];
    }
  }

  ghost predicate Supported(codec: Codec, headers: seq<Header>) {
    forall i :: 0 <= i < |headers| ==> FrameBitCount(codec, headers[i].frameType) >= 0
  }

  function ReadSpeech(codec: Codec, headers: seq<Header>, bs: seq<bool>): Result<seq<Frame>>
    requires Supported(codec, headers)
  {
    if headers == [] then Ok([]) else
      var n := FrameBitCount(codec, headers[0].frameType);
      if |bs| < n then Err(PayloadTruncated)
      else match ReadSpeech(codec, headers[1..], bs[n..])
        case Ok(frames) => Ok([Frame(headers[0].frameType, headers[0].quality, Packed(bs[..n]))] + frames)
        case Err(e) => Err(e)
  }

  lemma {:induction false} TocIsSupported(codec: Codec, bs: seq<bool>)
    ensures ReadToc(codec, bs).Ok? ==>
      forall i :: 0 <= i < |ReadToc(codec, bs).value.0| ==>
        FrameBitCount(codec, ReadToc(codec, bs).value.0[i].frameType) >= 0
    decreases |bs|
  {
    if |bs| >= 6 {
      TocIsSupported(codec, bs[6..]);
    }
  }

  function ReadPayload(codec: Codec, bs: seq<bool>): Result<seq<Frame>> {
    if |bs| < 4 then Err(PayloadTruncated) else
      TocIsSupported(codec, bs[4..]);
      match ReadToc(codec, bs[4..])
      case Ok((headers, rest)) => ReadSpeech(codec, headers, rest)
      case Err(e) => Err(e)
  }

  // ----- what stands where in any payload -----

  /** Entry k of a table of contents; the bits are those after the mode request. */
  function HeaderAt(bs: seq<bool>, k: nat): Header
    requires 6 * k + 6 <= |bs|
  {
    Header(Number(bs[6 * k + 1..6 * k + 5]), bs[6 * k + 5])
  }

  function HeadersAt(bs: seq<bool>, n: nat): seq<Header>
    requires 6 * n <= |bs|
  {
    seq(n, k requires 0 <= k < n => HeaderAt(bs, k))
  }

  predicate IsKnown(codec: Codec, bs: seq<bool>, k: nat)
    requires 6 * k + 6 <= |bs|
  {
    FrameBitCount(codec, HeaderAt(bs, k).frameType) >= 0
  }

  /** The first k entries are there, of types the codec has, and each says that another one follows. */
  ghost predicate GoesOn(codec: Codec, bs: seq<bool>, k: nat) {
    6 * k <= |bs| && forall j :: 0 <= j < k ==> bs[6 * j] && IsKnown(codec, bs, j)
  }

  /** The table has n entries. */
  ghost predicate HasToc(codec: Codec, bs: seq<bool>, n: nat) {
    && 0 < n && 6 * n <= |bs| && GoesOn(codec, bs, n - 1)
    && !bs[6 * (n - 1)] && IsKnown(codec, bs, n - 1)
  }

  function SpeechSize(codec: Codec, headers: seq<Header>): int {
    if headers == [] then 0 else FrameBitCount(codec, headers[0].frameType) + SpeechSize(codec, headers[1..])
  }

  /** The table has n entries and all of their speech is there, whatever follows it. */
  ghost predicate IsWhole(codec: Codec, bs: seq<bool>, n: nat) {
    HasToc(codec, bs, n) && 6 * n + SpeechSize(codec, HeadersAt(bs, n)) <= |bs|
  }

  /** The table has an entry of a type that the codec has not. */
  ghost predicate NamesUnknown(codec: Codec, bs: seq<bool>) {
    exists k: nat :: GoesOn(codec, bs, k) && 6 * k + 6 <= |bs| && !IsKnown(codec, bs, k)
  }

  lemma EntryLater(bs: seq<bool>, k: nat)
    requires 6 * k + 12 <= |bs|
    ensures HeaderAt(bs[6..], k) == HeaderAt(bs, k + 1) && bs[6..][6 * k] == bs[6 * (k + 1)]
  {
    assert bs[6..][6 * k + 1..6 * k + 5] == bs[6 * k + 7..6 * k + 11];
  }

  lemma GoesOnLater(codec: Codec, bs: seq<bool>, k: nat)
    requires k > 0 && GoesOn(codec, bs, k)
    ensures |bs| >= 6 && bs[0] && IsKnown(codec, bs, 0) && GoesOn(codec, bs[6..], k - 1)
  {
    assert bs[6 * 0] && IsKnown(codec, bs, 0);
    forall j | 0 <= j < k - 1 ensures bs[6..][6 * j] && IsKnown(codec, bs[6..], j) {
      EntryLater(bs, j);
      assert IsKnown(codec, bs, j + 1);
    }
  }

  /** Where the table stops, one way or another. */
  lemma TocStops(codec: Codec, bs: seq<bool>) returns (k: nat)
    ensures GoesOn(codec, bs, k)
    ensures 6 * k + 6 > |bs| || !IsKnown(codec, bs, k) || HasToc(codec, bs, k + 1)
  {
    k := 0;
    while 6 * k + 6 <= |bs| && IsKnown(codec, bs, k) && bs[6 * k]
      invariant GoesOn(codec, bs, k)
      decreases |bs| - 6 * k
    {
      k := k + 1;
    }
  }

  lemma {:induction false} TocFails(codec: Codec, bs: seq<bool>, k: nat)
    requires GoesOn(codec, bs, k)
    ensures 6 * k + 6 > |bs| ==> ReadToc(codec, bs) == Err(PayloadTruncated)
    ensures 6 * k + 6 <= |bs| && !IsKnown(codec, bs, k) ==> ReadToc(codec, bs) == Err(FrameTypeUnsupported)
    decreases k
  {
    if k > 0 {
      GoesOnLater(codec, bs, k);
      TocFails(codec, bs[6..], k - 1);
      if 6 * k + 6 <= |bs| { EntryLater(bs, k - 1); }
    }
  }

  lemma HeadersFrom(bs: seq<bool>, n: nat)
    requires 0 < n && 6 * n <= |bs|
    ensures HeadersAt(bs, n) == [HeaderAt(bs, 0)] + HeadersAt(bs[6..], n - 1)
  {
    forall k | 0 < k < n ensures HeadersAt(bs, n)[k] == HeadersAt(bs[6..], n - 1)[k - 1] {
      EntryLater(bs, k - 1);
    }
  }

  lemma {:induction false} TocRead(codec: Codec, bs: seq<bool>, n: nat)
    requires HasToc(codec, bs, n)
    ensures ReadToc(codec, bs) == Ok((HeadersAt(bs, n), bs[6 * n..]))
    decreases n
  {
    HeadersFrom(bs, n);
    if n > 1 {
      GoesOnLater(codec, bs, n - 1);
      EntryLater(bs, n - 2);
      TocRead(codec, bs[6..], n - 1);
      assert bs[6..][6 * (n - 1)..] == bs[6 * n..];
    } else {
      assert !bs[0] && IsKnown(codec, bs, 0);
      assert HeadersAt(bs, n) == [HeaderAt(bs, 0)];
    }
  }

  /** frame has the header, and its data is that many bits from start on. */
  ghost predicate IsFrameAt(codec: Codec, frame: Frame, header: Header, bs: seq<bool>, start: int) {
    var n := FrameBitCount(codec, header.frameType);
    && frame.frameType == header.frameType && frame.quality == header.quality
    && n >= 0 && 0 <= start <= start + n <= |bs| && Holds(frame.data, bs[start..start + n])
  }

  lemma {:induction false} SpeechSizeFrom(codec: Codec, headers: seq<Header>)
    requires Supported(codec, headers)
    ensures SpeechSize(codec, headers) >= 0
  {
    if headers != [] { SpeechSizeFrom(codec, headers[1..]); }
  }

  lemma {:induction false} SpeechRead(codec: Codec, headers: seq<Header>, bs: seq<bool>)
    requires Supported(codec, headers)
    ensures var r := ReadSpeech(codec, headers, bs);
      if SpeechSize(codec, headers) <= |bs| then r.Ok? && |r.value| == |headers| else r == Err(PayloadTruncated)
    decreases |headers|
  {
    if headers != [] {
      var n := FrameBitCount(codec, headers[0].frameType);
      SpeechSizeFrom(codec, headers[1..]);
      if n <= |bs| { SpeechRead(codec, headers[1..], bs[n..]); }
    }
  }

  lemma FirstSpeech(codec: Codec, headers: seq<Header>, bs: seq<bool>)
    requires Supported(codec, headers) && headers != [] && SpeechSize(codec, headers) <= |bs|
    ensures var n := FrameBitCount(codec, headers[0].frameType);
      && 0 <= n <= |bs| && SpeechSize(codec, headers[1..]) <= |bs[n..]|
      && var rest := ReadSpeech(codec, headers[1..], bs[n..]);
      && rest.Ok? && |rest.value| == |headers| - 1
      && ReadSpeech(codec, headers, bs) ==
         Ok([Frame(headers[0].frameType, headers[0].quality, Packed(bs[..n]))] + rest.value)
  {
    SpeechSizeFrom(codec, headers[1..]);
    SpeechRead(codec, headers[1..], bs[FrameBitCount(codec, headers[0].frameType)..]);
  }

  lemma FirstFrame(codec: Codec, headers: seq<Header>, bs: seq<bool>)
    requires Supported(codec, headers) && headers != [] && FrameBitCount(codec, headers[0].frameType) <= |bs|
    ensures var n := FrameBitCount(codec, headers[0].frameType);
      var frame := Frame(headers[0].frameType, headers[0].quality, Packed(bs[..n]));
      IsFrameAt(codec, frame, headers[0], bs, SpeechSize(codec, headers[..0]))
  {
    PackedHolds(bs[..FrameBitCount(codec, headers[0].frameType)]);
  }

  lemma SizeBefore(codec: Codec, headers: seq<Header>, k: nat)
    requires 0 < k <= |headers|
    ensures SpeechSize(codec, headers[..k]) ==
      FrameBitCount(codec, headers[0].frameType) + SpeechSize(codec, headers[1..][..k - 1])
  {
    assert headers[..k][1..] == headers[1..][..k - 1];
  }

  lemma FrameLater(codec: Codec, frame: Frame, header: Header, bs: seq<bool>, n: nat, start: int)
    requires n <= |bs| && IsFrameAt(codec, frame, header, bs[n..], start)
    ensures IsFrameAt(codec, frame, header, bs, n + start)
  {
    var m := FrameBitCount(codec, header.frameType);
    assert bs[n..][start..start + m] == bs[n + start..n + start + m];
  }

  /** The frames stand one after the other, each behind the speech of those before it. */
  ghost predicate InARow(codec: Codec, frames: seq<Frame>, headers: seq<Header>, bs: seq<bool>) {
    && |frames| == |headers|
    && forall k :: 0 <= k < |frames| ==>
         IsFrameAt(codec, frames[k], headers[k], bs, SpeechSize(codec, headers[..k]))
  }

  lemma LaterInRow(codec: Codec, frames: seq<Frame>, headers: seq<Header>, bs: seq<bool>, n: nat, k: nat)
    requires headers != [] && n == FrameBitCount(codec, headers[0].frameType) <= |bs|
    requires InARow(codec, frames, headers[1..], bs[n..]) && k < |frames|
    ensures IsFrameAt(codec, frames[k], headers[k + 1], bs, SpeechSize(codec, headers[..k + 1]))
  {
    SizeBefore(codec, headers, k + 1);
    FrameLater(codec, frames[k], headers[1..][k], bs, n, SpeechSize(codec, headers[1..][..k]));
  }

  lemma OneBefore(codec: Codec, first: Frame, frames: seq<Frame>, headers: seq<Header>, bs: seq<bool>, n: nat)
    requires headers != [] && n == FrameBitCount(codec, headers[0].frameType) <= |bs|
    requires IsFrameAt(codec, first, headers[0], bs, SpeechSize(codec, headers[..0]))
    requires InARow(codec, frames, headers[1..], bs[n..])
    ensures InARow(codec, [first] + frames, headers, bs)
  {
    var all := [first] + frames;
    forall k | 0 <= k < |all| ensures IsFrameAt(codec, all[k], headers[k], bs, SpeechSize(codec, headers[..k])) {
      if k > 0 { LaterInRow(codec, frames, headers, bs, n, k - 1); }
    }
  }

  lemma {:induction false} SpeechStands(codec: Codec, headers: seq<Header>, bs: seq<bool>)
    requires Supported(codec, headers) && SpeechSize(codec, headers) <= |bs|
    ensures var r := ReadSpeech(codec, headers, bs); r.Ok? && InARow(codec, r.value, headers, bs)
    decreases |headers|
  {
    if headers != [] {
      var n := FrameBitCount(codec, headers[0].frameType);
      FirstSpeech(codec, headers, bs);
      FirstFrame(codec, headers, bs);
      SpeechStands(codec, headers[1..], bs[n..]);
      OneBefore(codec, Frame(headers[0].frameType, headers[0].quality, Packed(bs[..n])),
        ReadSpeech(codec, headers[1..], bs[n..]).value, headers, bs, n);
    }
  }

  lemma HeadersKnown(codec: Codec, bs: seq<bool>, n: nat)
    requires HasToc(codec, bs, n)
    ensures Supported(codec, HeadersAt(bs, n))
  {
    forall k | 0 <= k < n ensures FrameBitCount(codec, HeadersAt(bs, n)[k].frameType) >= 0 {
      assert IsKnown(codec, bs, k);
    }
  }

  lemma TocGives(codec: Codec, all: seq<bool>, n: nat)
    requires |all| >= 4 && HasToc(codec, all[4..], n)
    ensures if IsWhole(codec, all[4..], n) then ReadPayload(codec, all).Ok?
      else ReadPayload(codec, all) == Err(PayloadTruncated)
  {
    var bs := all[4..];
    TocRead(codec, bs, n);
    HeadersKnown(codec, bs, n);
    SpeechRead(codec, HeadersAt(bs, n), bs[6 * n..]);
  }

  /** Each frame has its entry's type and quality, and its own part of the speech. */
  ghost predicate FramesStand(codec: Codec, bs: seq<bool>, frames: seq<Frame>)
    requires 6 * |frames| <= |bs|
  {
    InARow(codec, frames, HeadersAt(bs, |frames|), bs[6 * |frames|..])
  }

  /**
   r is what a payload with these bits says. Frames come out exactly if, after
   any four bits, there is a table of contents and all the speech it announces;
   a type that the codec has not is an error of its own, and every other
   payload is too short.
   */
  ghost predicate IsReading(codec: Codec, all: seq<bool>, r: Result<seq<Frame>>) {
    && (r.Ok? <==> |all| >= 4 && exists n: nat :: IsWhole(codec, all[4..], n))
    && (r == Err(FrameTypeUnsupported) <==> |all| >= 4 && NamesUnknown(codec, all[4..]))
    && match r
       case Ok(frames) => |all| >= 4 && IsWhole(codec, all[4..], |frames|) && FramesStand(codec, all[4..], frames)
       case Err(e) => e == PayloadTruncated || e == FrameTypeUnsupported
  }

  lemma FramesRead(codec: Codec, all: seq<bool>, n: nat)
    requires |all| >= 4 && IsWhole(codec, all[4..], n)
    ensures var r := ReadPayload(codec, all);
      r.Ok? && |r.value| == n && FramesStand(codec, all[4..], r.value)
  {
    var bs := all[4..];
    var headers, speech := HeadersAt(bs, n), bs[6 * n..];
    TocRead(codec, bs, n);
    HeadersKnown(codec, bs, n);
    SpeechStands(codec, headers, speech);
  }

  lemma PayloadRead(codec: Codec, all: seq<bool>)
    ensures IsReading(codec, all, ReadPayload(codec, all))
  {
    if |all| >= 4 {
      var bs := all[4..];
      var k := TocStops(codec, bs);
      if HasToc(codec, bs, k + 1) {
        TocGives(codec, all, k + 1);
      } else {
        TocFails(codec, bs, k);
        assert 6 * k + 6 <= |bs| ==> NamesUnknown(codec, bs);
      }
      if j: nat :| GoesOn(codec, bs, j) && 6 * j + 6 <= |bs| && !IsKnown(codec, bs, j) {
        TocFails(codec, bs, j);
      }
      if n: nat :| IsWhole(codec, bs, n) { FramesRead(codec, all, n); }
    }
  }

  /** A payload says one thing only. */
  lemma OneReading(codec: Codec, all: seq<bool>, a: Result<seq<Frame>>, b: Result<seq<Frame>>)
    requires IsReading(codec, all, a) && IsReading(codec, all, b)
    ensures a == b
  {
    if a.Ok? {
      assert b.Ok?;
      var bs, n := all[4..], |a.value|;
      OneToc(codec, bs, n, |b.value|);
      var headers := HeadersAt(bs, n);
      forall k | 0 <= k < n ensures a.value[k] == b.value[k] {
        OneFrame(codec, a.value[k], b.value[k], headers[k], bs[6 * n..], SpeechSize(codec, headers[..k]));
      }
      assert a.value == b.value;
    }
  }

  lemma OneToc(codec: Codec, bs: seq<bool>, m: nat, n: nat)
    requires HasToc(codec, bs, m) && HasToc(codec, bs, n)
    ensures m == n
  {
  }

  lemma OneFrame(codec: Codec, a: Frame, b: Frame, header: Header, bs: seq<bool>, start: int)
    requires IsFrameAt(codec, a, header, bs, start) && IsFrameAt(codec, b, header, bs, start)
    ensures a == b
  {
    HoldsOnce(a.data, b.data, bs[start..start + FrameBitCount(codec, header.frameType)]);
  }

  // ----- the methods -----

  function Prepended<T>(xs: seq<T>, r: Result<(seq<T>, seq<bool>)>): Result<(seq<T>, seq<bool>)> {
    match r
    case Ok((ys, rest)) => Ok((xs + ys, rest))
    case Err(e) => Err(e)
  }

  method ReadTocEntry(codec: Codec, reader: BitReader) returns (more: bool, header: Header, error: seq<AmrError>)
    requires reader.Valid()
    modifies reader
    ensures reader.Valid()
    ensures var bs := old(reader.left);
      error == if |bs| < 6 then [PayloadTruncated]
               else if FrameBitCount(codec, Number(bs[1..5])) < 0 then [FrameTypeUnsupported] else []
    ensures error == [] ==> var bs := old(reader.left);
      more == bs[0] && header == Header(Number(bs[1..5]), bs[5]) && reader.left == bs[6..]
  {
    ghost var bs := reader.left;
    header := Header(0, false);
    var f, frameType, quality, ok;
    f, ok := reader.ReadBits(1);
    if !ok { return false, header, [PayloadTruncated]; }
    SingleBit(bs);
    frameType, ok := reader.ReadBits(4);
    if !ok { return false, header, [PayloadTruncated]; }
    assert bs[1..][..4] == bs[1..5];
    quality, ok := reader.ReadBits(1);
    if !ok { return false, header, [PayloadTruncated]; }
    SingleBit(bs[5..]);
    if FrameBitCount(codec, frameType) < 0 {
      return false, header, [FrameTypeUnsupported];
    }
    return f != 0, Header(frameType, quality != 0), [];
  }

  lemma PrependNothing<T>(r: Result<(seq<T>, seq<bool>)>)
    ensures Prepended([], r) == r
  {
    if r.Ok? {
      assert [] + r.value.0 == r.value.0;
    }
  }

  lemma TocReadStep(codec: Codec, headers: seq<Header>, bs: seq<bool>)
    requires |bs| >= 6 && FrameBitCount(codec, Number(bs[1..5])) >= 0
    ensures var header := Header(Number(bs[1..5]), bs[5]);
      Prepended(headers, ReadToc(codec, bs)) ==
      if bs[0] then Prepended(headers + [header], ReadToc(codec, bs[6..])) else Ok((headers + [header], bs[6..]))
  {
    var header, rec := Header(Number(bs[1..5]), bs[5]), ReadToc(codec, bs[6..]);
    if bs[0] && rec.Ok? {
      assert headers + ([header] + rec.value.0) == headers + [header] + rec.value.0;
    }
  }

  method ReadHeaders(codec: Codec, reader: BitReader) returns (r: Result<seq<Header>>)
    requires reader.Valid()
    modifies reader
    ensures reader.Valid()
    ensures match r
      case Ok(headers) => ReadToc(codec, old(reader.left)) == Ok((headers, reader.left))
      case Err(e) => ReadToc(codec, old(reader.left)) == Err(e)
  {
    var headers: seq<Header>, hasMore := [], true;
    ghost var whole := ReadToc(codec, reader.left);
    PrependNothing(whole);
    while hasMore
      invariant reader.Valid()
      invariant hasMore ==> Prepended(headers, ReadToc(codec, reader.left)) == whole
      invariant !hasMore ==> Ok((headers, reader.left)) == whole
      decreases |reader.left|, hasMore
    {
      ghost var bs := reader.left;
      var more, header, error := ReadTocEntry(codec, reader);
      if error != [] {
        return Err(error[0]);
      }
      TocReadStep(codec, headers, bs);
      headers, hasMore := headers + [header], more;
    }
    r := Ok(headers);
  }

  function PrependedFrames(xs: seq<Frame>, r: Result<seq<Frame>>): Result<seq<Frame>> {
    match r
    case Ok(ys) => Ok(xs + ys)
    case Err(e) => Err(e)
  }

  lemma SpeechReadStep(codec: Codec, frames: seq<Frame>, headers: seq<Header>, i: nat, bs: seq<bool>)
    requires Supported(codec, headers) && i < |headers|
    ensures var n := FrameBitCount(codec, headers[i].frameType);
      PrependedFrames(frames, ReadSpeech(codec, headers[i..], bs)) ==
      if |bs| < n then Err(PayloadTruncated)
      else PrependedFrames(frames + [Frame(headers[i].frameType, headers[i].quality, Packed(bs[..n]))],
                           ReadSpeech(codec, headers[i + 1..], bs[n..]))
  {
    var n := FrameBitCount(codec, headers[i].frameType);
    assert headers[i..][0] == headers[i] && headers[i..][1..] == headers[i + 1..];
    if |bs| >= n {
      var frame, rec := Frame(headers[i].frameType, headers[i].quality, Packed(bs[..n])),
        ReadSpeech(codec, headers[i + 1..], bs[n..]);
      if rec.Ok? {
        assert frames + ([frame] + rec.value) == frames + [frame] + rec.value;
      }
    }
  }

  method ReadFrames(codec: Codec, headers: seq<Header>, reader: BitReader) returns (r: Result<seq<Frame>>)
    requires reader.Valid() && Supported(codec, headers)
    modifies reader
    ensures r == ReadSpeech(codec, headers, old(reader.left))
  {
    var frames: seq<Frame> := [];
    ghost var whole := ReadSpeech(codec, headers, reader.left);
    assert headers[0..] == headers;
    assert whole.Ok? ==> [] + whole.value == whole.value;
    for i := 0 to |headers|
      invariant reader.Valid()
      invariant PrependedFrames(frames, ReadSpeech(codec, headers[i..], reader.left)) == whole
    {
      var bits := FrameBitCount(codec, headers[i].frameType);
      ghost var bs := reader.left;
      SpeechReadStep(codec, frames, headers, i, bs);
      var data, ok := reader.ReadBytes(bits);
      if !ok {
        return Err(PayloadTruncated);
      }
      PackedHolds(bs[..bits]);
      HoldsOnce(data, Packed(bs[..bits]), bs[..bits]);
      frames := frames + [Frame(headers[i].frameType, headers[i].quality, data)];
    }
    assert frames + [] == frames;
    r := Ok(frames);
  }

  method UnmarshalBandwidthEfficient(codec: Codec, payload: seq<bv8>) returns (r: Result<seq<Frame>>)
    ensures r == ReadPayload(codec, Bits(payload)) && IsReading(codec, Bits(payload), r)
  {
    PayloadRead(codec, Bits(payload));
    var reader := new BitReader(payload);
    var cmr, ok := reader.ReadBits(4);
    if !ok {
      return Err(PayloadTruncated);
    }
    TocIsSupported(codec, reader.left);
    var headers := ReadHeaders(codec, reader);
    match headers
    case Err(e) => r := Err(e);
    case Ok(hs) => r := ReadFrames(codec, hs, reader);
  }

  // ----- the round trip -----

  function Headers(frames: seq<Frame>): seq<Header>
    requires forall i :: 0 <= i < |frames| ==> frames[i].frameType >= 0
  {
    seq(|frames|, i requires 0 <= i < |frames| => Header(frames[i].frameType, frames[i].quality))
  }

  lemma {:induction false} NoFaults(codec: Codec, frames: seq<Frame>)
    requires Faults(codec, frames) == []
    ensures forall i :: 0 <= i < |frames| ==> FrameFault(codec, frames[i]) == [] && 0 <= frames[i].frameType < 16
  {
    if frames != [] {
      NoFaults(codec, frames[1..]);
      assert forall i :: 0 < i < |frames| ==> frames[i] == frames[1..][i - 1];
    }
  }

  lemma EntryRead(f: Frame, more: bool, rest: seq<bool>)
    requires 0 <= f.frameType < 16
    ensures var bs := TocEntry(f, more) + rest;
      |bs| >= 6 && bs[0] == more && Number(bs[1..5]) == f.frameType && bs[5] == f.quality && bs[6..] == rest
  {
    var bs := TocEntry(f, more) + rest;
    assert bs[1..5] == NumberBits(f.frameType, 4);
    assert Pow2(4) == 16;
    NumberOfBits(f.frameType, 4);
  }

  lemma TocReadOne(codec: Codec, f: Frame, more: bool, rest: seq<bool>)
    requires 0 <= f.frameType < 16 && FrameBitCount(codec, f.frameType) >= 0
    ensures ReadToc(codec, TocEntry(f, more) + rest) ==
      if more then Prepended([Header(f.frameType, f.quality)], ReadToc(codec, rest))
      else Ok(([Header(f.frameType, f.quality)], rest))
  {
    EntryRead(f, more, rest);
  }

  lemma {:induction false} TocRoundTrip(codec: Codec, frames: seq<Frame>, rest: seq<bool>)
    requires frames != [] && Faults(codec, frames) == []
    requires forall i :: 0 <= i < |frames| ==> 0 <= frames[i].frameType < 16
    ensures ReadToc(codec, TocBits(frames) + rest) == Ok((Headers(frames), rest))
  {
    var f, tail := frames[0], frames[1..];
    var more := |frames| > 1;
    Reassociate(TocEntry(f, more), TocBits(tail), rest);
    TocReadOne(codec, f, more, TocBits(tail) + rest);
    HeadersTail(frames);
    if more {
      TocRoundTrip(codec, tail, rest);
    } else {
      assert Headers(frames) == [Header(f.frameType, f.quality)];
      assert TocBits(tail) + rest == rest;
    }
  }

  /** The frame with the unused bits of its last byte cleared. */
  function Cleaned(codec: Codec, f: Frame): Frame
    requires FrameFault(codec, f) == []
  {
    f.(data := Packed(SpeechOf(codec, f)))
  }

  function AllCleaned(codec: Codec, frames: seq<Frame>): seq<Frame>
    requires Faults(codec, frames) == []
  {
    if frames == [] then [] else [Cleaned(codec, frames[0])] + AllCleaned(codec, frames[1..])
  }

  lemma SpeechReadOne(codec: Codec, headers: seq<Header>, speech: seq<bool>, tail: seq<bool>)
    requires Supported(codec, headers) && headers != [] && |speech| == FrameBitCount(codec, headers[0].frameType)
    ensures ReadSpeech(codec, headers, speech + tail) ==
            PrependedFrames([Frame(headers[0].frameType, headers[0].quality, Packed(speech))],
              ReadSpeech(codec, headers[1..], tail))
  {
    Split(speech, tail);
  }

  lemma HeadersTail(frames: seq<Frame>)
    requires frames != [] && forall i :: 0 <= i < |frames| ==> frames[i].frameType >= 0
    ensures Headers(frames)[0] == Header(frames[0].frameType, frames[0].quality)
    ensures Headers(frames)[1..] == Headers(frames[1..])
    ensures Headers(frames) == [Headers(frames)[0]] + Headers(frames[1..])
  {
  }

  lemma {:induction false} SpeechRoundTrip(codec: Codec, frames: seq<Frame>, pad: seq<bool>)
    requires Faults(codec, frames) == [] && forall i :: 0 <= i < |frames| ==> 0 <= frames[i].frameType < 16
    requires Supported(codec, Headers(frames))
    ensures ReadSpeech(codec, Headers(frames), SpeechBits(codec, frames) + pad) == Ok(AllCleaned(codec, frames))
  {
    if frames != [] {
      var speech, tail := SpeechOf(codec, frames[0]), SpeechBits(codec, frames[1..]) + pad;
      HeadersTail(frames);
      SpeechRoundTrip(codec, frames[1..], pad);
      Reassociate(speech, SpeechBits(codec, frames[1..]), pad);
      SpeechReadOne(codec, Headers(frames), speech, tail);
    }
  }

  lemma Reassociate(a: seq<bool>, b: seq<bool>, c: seq<bool>)
    ensures a + b + c == a + (b + c)
  {
  }

  lemma Split(a: seq<bool>, b: seq<bool>)
    ensures (a + b)[..|a|] == a && (a + b)[|a|..] == b
  {
  }

  /** Cleaning keeps everything but the unused bits, which become zero. */
  lemma CleanedFrame(codec: Codec, f: Frame)
    requires FrameFault(codec, f) == []
    ensures var g := Cleaned(codec, f);
      && g.frameType == f.frameType && g.quality == f.quality && |g.data| == |f.data|
      && forall i :: 0 <= i < 8 * |f.data| ==>
           BitAt(g.data, i) == (i < FrameBitCount(codec, f.frameType) && BitAt(f.data, i))
  {
    PackedHolds(SpeechOf(codec, f));
  }

  function TotalBits(codec: Codec, frames: seq<Frame>): int {
    if frames == [] then 0 else FrameBitCount(codec, frames[0].frameType) + TotalBits(codec, frames[1..])
  }

  lemma {:induction false} PayloadLength(codec: Codec, frames: seq<Frame>)
    requires Faults(codec, frames) == []
    ensures |TocBits(frames)| == 6 * |frames| && |SpeechBits(codec, frames)| == TotalBits(codec, frames)
  {
    if frames != [] {
      PayloadLength(codec, frames[1..]);
    }
  }

  /** Whatever the first four bits ask for and whatever follows the speech, the frames come out, cleaned. */
  lemma AnyModeRequest(codec: Codec, request: seq<bool>, frames: seq<Frame>, pad: seq<bool>, all: seq<bool>)
    requires |request| == 4 && frames != [] && Faults(codec, frames) == []
    requires all == request + TocBits(frames) + SpeechBits(codec, frames) + pad
    ensures ReadPayload(codec, all) == Ok(AllCleaned(codec, frames))
  {
    var toc, speech := TocBits(frames), SpeechBits(codec, frames);
    NoFaults(codec, frames);
    Regroup(request, toc, speech, pad, all);
    TocRoundTrip(codec, frames, speech + pad);
    TocIsSupported(codec, toc + (speech + pad));
    SpeechRoundTrip(codec, frames, pad);
  }

  /**
   Unmarshalling a marshalled payload gives the frames back, cleaned; the
   payload has as many bytes as its bits need, and asks for no mode.
   */
  lemma BandwidthEfficientRoundTrip(codec: Codec, frames: seq<Frame>, payload: seq<bv8>)
    requires frames != [] && Faults(codec, frames) == [] && Holds(payload, PayloadBits(codec, frames))
    ensures ReadPayload(codec, Bits(payload)) == Ok(AllCleaned(codec, frames))
    ensures |payload| == (4 + 6 * |frames| + TotalBits(codec, frames) + 7) / 8
    ensures forall i :: 0 <= i < 4 ==> BitAt(payload, i)
  {
    var bs := PayloadBits(codec, frames);
    var pad := Bits(payload)[|bs|..];
    PayloadLength(codec, frames);
    assert Bits(payload)[..|bs|] == bs && Bits(payload) == bs + pad;
    AnyModeRequest(codec, NumberBits(NO_MODE_REQUEST, 4), frames, pad, Bits(payload));
    NoRequestBits();
    forall i | 0 <= i < 4 ensures BitAt(payload, i) { assert bs[i] == NumberBits(15, 4)[i]; }
  }

  lemma NoRequestBits()
    ensures forall i :: 0 <= i < 4 ==> NumberBits(NO_MODE_REQUEST, 4)[i]
  {
    assert NumberBits(3, 2) == [true, true];
  }

  lemma Regroup(a: seq<bool>, b: seq<bool>, c: seq<bool>, pad: seq<bool>, all: seq<bool>)
    requires |a| + |b| + |c| <= |all| && all[..|a| + |b| + |c|] == a + b + c && pad == all[|a| + |b| + |c|..]
    ensures all[|a|..] == b + (c + pad)
  {
    assert all == a + b + c + pad;
  }
}
