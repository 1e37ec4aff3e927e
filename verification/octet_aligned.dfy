/** The octet-aligned payload of section 4.4 of RFC 4867. */
module OctetAligned {
  import opened AMR
  import opened AMRStorage

  // ----- what a payload is -----

  const FIRST: bv8 := 0xF0

  function TocByte(f: Frame, more: bool): bv8 {
    HeaderByte(f) | (if more then 0x80 else 0)
  }

  predicate MoreAfter(toc: bv8)
    ensures MoreAfter(toc) <==> toc >= 0x80
  {
    toc & 0x80 != 0
  }

  lemma TocByteRoundTrip(f: Frame, more: bool)
    requires 0 <= f.frameType < 16
    ensures var toc := TocByte(f, more);
      TypeOf(toc) == f.frameType && QualityOf(toc) == f.quality && MoreAfter(toc) == more && toc & 0x03 == 0
  {
    assert f.frameType in {0, 1, 2, 3, 4, 5, 6, 7, 8, 9, 10, 11, 12, 13, 14, 15};
  }

  function TocOctets(frames: seq<Frame>): (t: seq<bv8>)
    ensures |t| == |frames|
  {
    if frames == [] then [] else [TocByte(frames[0], |frames| > 1)] + TocOctets(frames[1..])
  }

  lemma {:induction false} TocAt(frames: seq<Frame>, i: nat)
    requires i < |frames|
    ensures TocOctets(frames)[i] == TocByte(frames[i], i < |frames| - 1)
    decreases |frames|
  {
    if i > 0 { TocAt(frames[1..], i - 1); }
  }

  function SpeechOctets(frames: seq<Frame>): seq<bv8> {
    if frames == [] then [] else frames[0].data + SpeechOctets(frames[1..])
  }

  function PayloadOctets(frames: seq<Frame>): seq<bv8> {
    [FIRST] + TocOctets(frames) + SpeechOctets(frames)
  }

  // ----- marshalling -----

  method CheckFrames(codec: Codec, frames: seq<Frame>) returns (faults: seq<AmrError>, speechBytes: nat)
    ensures faults == [] <==> Faults(codec, frames) == []
    ensures faults != [] ==> faults[0] == Faults(codec, frames)[0]
    ensures faults == [] ==> speechBytes == |SpeechOctets(frames)|
  {
    speechBytes := 0;
    for i := 0 to |frames|
      invariant Faults(codec, frames[..i]) == []
      invariant speechBytes + |SpeechOctets(frames[i..])| == |SpeechOctets(frames)|
    {
      var frame := frames[i];
      FaultAt(codec, frames, i);
      TablesAgree(codec, frame.frameType);
      var want := FrameBytes(codec, frame.frameType);
      if want < 0 {
        return [FrameTypeUnsupported], 0;
      }
      if |frame.data| != want {
        return [FrameSizeMismatch], 0;
      }
      speechBytes := speechBytes + |frame.data|;
      assert frames[i..][1..] == frames[i + 1..];
    }
    assert frames[..|frames|] == frames;
    faults := [];
  }

  method FillToc(frames: seq<Frame>, out: array<bv8>)
    requires out.Length >= 1 + |frames| && out[0] == FIRST
    modifies out
    ensures out[..1 + |frames|] == [FIRST] + TocOctets(frames)
  {
    var offset := 1;
    for i := 0 to |frames|
      invariant offset == 1 + i
      invariant out[0] == FIRST && forall k :: 0 <= k < i ==> out[1 + k] == TocByte(frames[k], k < |frames| - 1)
    {
      var toc := HeaderByte(frames[i]);
      if i < |frames| - 1 {
        toc := toc | 0x80;
      }
      out[offset] := toc;
      offset := offset + 1;
    }
    forall k | 0 <= k < |frames| ensures out[1 + k] == TocOctets(frames)[k] { TocAt(frames, k); }
  }

  method FillSpeech(frames: seq<Frame>, out: array<bv8>, start: nat)
    requires start + |SpeechOctets(frames)| == out.Length
    modifies out
    ensures out[..] == old(out[..start]) + SpeechOctets(frames)
  {
    var offset := start;
    ghost var whole := out[..start] + SpeechOctets(frames);
    assert frames[0..] == frames;
    for i := 0 to |frames|
      invariant 0 <= offset <= out.Length && offset + |SpeechOctets(frames[i..])| == out.Length
      invariant out[..offset] + SpeechOctets(frames[i..]) == whole
    {
      var data := frames[i].data;
      assert frames[i..][0] == frames[i] && frames[i..][1..] == frames[i + 1..];
      ghost var before := out[..offset];
      Join(before, data, SpeechOctets(frames[i + 1..]));
      CopyTo(out, offset, data);
      offset := offset + |data|;
    }
    assert out[..offset] + [] == out[..];
  }

  method CopyTo(out: array<bv8>, offset: nat, data: seq<bv8>)
    requires offset + |data| <= out.Length
    modifies out
    ensures out[..offset + |data|] == old(out[..offset]) + data
  {
    for k := 0 to |data|
      invariant out[..offset + k] == old(out[..offset]) + data[..k]
    {
      out[offset + k] := data[k];
    }
  }

  method MarshalOctetAligned(codec: Codec, frames: seq<Frame>) returns (r: Result<seq<bv8>>)
    ensures frames == [] ==> r == Err(FramesRequired)
    ensures frames != [] ==>
      r == if Faults(codec, frames) == [] then Ok(PayloadOctets(frames)) else Err(Faults(codec, frames)[0])
  {
    if |frames| == 0 {
      return Err(FramesRequired);
    }
    var faults, speechBytes := CheckFrames(codec, frames);
    if faults != [] {
      return Err(faults[0]);
    }
    var out := new bv8[1 + |frames| + speechBytes];
    out[0] := FIRST;
    FillToc(frames, out);
    FillSpeech(frames, out, 1 + |frames|);
    r := Ok(out[..]);
  }

  // ----- unmarshalling -----

  function ReadToc(codec: Codec, data: seq<bv8>): Result<(seq<Header>, seq<bv8>)> {
    if data == [] then Err(TocTruncated)
    else if FrameBytes(codec, TypeOf(data[0])) < 0 then Err(FrameTypeUnsupported)
    else
      var header := Header(TypeOf(data[0]), QualityOf(data[0]));
      if !MoreAfter(data[0]) then Ok(([header], data[1..]))
      else match ReadToc(codec, data[1..])
        case Ok((headers, rest)) => Ok(([header] + headers, rest))
        case Err(e) => Err(e)
  }

  ghost predicate Sized(codec: Codec, headers: seq<Header>) {
    forall i :: 0 <= i < |headers| ==> FrameBytes(codec, headers[i].frameType) >= 0
  }

  lemma {:induction false} TocIsSized(codec: Codec, data: seq<bv8>)
    ensures ReadToc(codec, data).Ok? ==> Sized(codec, ReadToc(codec, data).value.0)
    decreases |data|
  {
    if data != [] { TocIsSized(codec, data[1..]); }
  }

  function ReadSpeech(codec: Codec, headers: seq<Header>, data: seq<bv8>): Result<seq<Frame>>
    requires Sized(codec, headers)
  {
    if headers == [] then Ok([]) else
      var size := FrameBytes(codec, headers[0].frameType);
      if size > |data| then Err(SpeechDataTruncated)
      else match ReadSpeech(codec, headers[1..], data[size..])
        case Ok(frames) => Ok([Frame(headers[0].frameType, headers[0].quality, data[..size])] + frames)
        case Err(e) => Err(e)
  }

  function ReadPayload(codec: Codec, payload: seq<bv8>): Result<seq<Frame>> {
    if |payload| < 2 then Err(PayloadShort) else
      TocIsSized(codec, payload[1..]);
      match ReadToc(codec, payload[1..])
      case Ok((headers, rest)) => ReadSpeech(codec, headers, rest)
      case Err(e) => Err(e)
  }

  // ----- what stands where in any payload -----

  /** Entry k of a table of contents; the octets are those after the mode request. */
  function HeaderAt(data: seq<bv8>, k: nat): Header
    requires k < |data|
  {
    Header(TypeOf(data[k]), QualityOf(data[k]))
  }

  function HeadersAt(data: seq<bv8>, n: nat): seq<Header>
    requires n <= |data|
  {
    seq(n, k requires 0 <= k < n => HeaderAt(data, k))
  }

  predicate IsKnown(codec: Codec, data: seq<bv8>, k: nat)
    requires k < |data|
  {
    FrameBytes(codec, HeaderAt(data, k).frameType) >= 0
  }

  /** The first k entries are there, of types the codec has, and each says that another one follows. */
  ghost predicate GoesOn(codec: Codec, data: seq<bv8>, k: nat) {
    k <= |data| && forall j :: 0 <= j < k ==> IsKnown(codec, data, j) && MoreAfter(data[j])
  }

  /** The table has n entries. */
  ghost predicate HasToc(codec: Codec, data: seq<bv8>, n: nat) {
    && 0 < n <= |data| && GoesOn(codec, data, n - 1)
    && IsKnown(codec, data, n - 1) && !MoreAfter(data[n - 1])
  }

  function SpeechSize(codec: Codec, headers: seq<Header>): int {
    if headers == [] then 0 else FrameBytes(codec, headers[0].frameType) + SpeechSize(codec, headers[1..])
  }

  /** The table has n entries and all of their speech is there, whatever follows it. */
  ghost predicate IsWhole(codec: Codec, data: seq<bv8>, n: nat) {
    HasToc(codec, data, n) && n + SpeechSize(codec, HeadersAt(data, n)) <= |data|
  }

  /** The table has an entry of a type that the codec has not. */
  ghost predicate NamesUnknown(codec: Codec, data: seq<bv8>) {
    exists k: nat :: k < |data| && GoesOn(codec, data, k) && !IsKnown(codec, data, k)
  }

  /** Where the table stops, one way or another. */
  lemma TocStops(codec: Codec, data: seq<bv8>) returns (k: nat)
    ensures GoesOn(codec, data, k)
    ensures k == |data| || !IsKnown(codec, data, k) || HasToc(codec, data, k + 1)
  {
    k := 0;
    while k < |data| && IsKnown(codec, data, k) && MoreAfter(data[k])
      invariant GoesOn(codec, data, k)
    {
      k := k + 1;
    }
  }

  lemma EntryLater(codec: Codec, data: seq<bv8>, k: nat)
    requires k + 1 < |data|
    ensures HeaderAt(data[1..], k) == HeaderAt(data, k + 1) && data[1..][k] == data[k + 1]
    ensures IsKnown(codec, data[1..], k) == IsKnown(codec, data, k + 1)
  {
  }

  lemma GoesOnLater(codec: Codec, data: seq<bv8>, k: nat)
    requires k > 0 && GoesOn(codec, data, k)
    ensures data != [] && IsKnown(codec, data, 0) && MoreAfter(data[0]) && GoesOn(codec, data[1..], k - 1)
  {
    forall j | 0 <= j < k - 1 ensures IsKnown(codec, data[1..], j) && MoreAfter(data[1..][j]) {
      EntryLater(codec, data, j);
    }
  }

  lemma {:induction false} TocFails(codec: Codec, data: seq<bv8>, k: nat)
    requires GoesOn(codec, data, k)
    ensures k == |data| ==> ReadToc(codec, data) == Err(TocTruncated)
    ensures k < |data| && !IsKnown(codec, data, k) ==> ReadToc(codec, data) == Err(FrameTypeUnsupported)
    decreases k
  {
    if k > 0 {
      GoesOnLater(codec, data, k);
      TocFails(codec, data[1..], k - 1);
      if k < |data| { EntryLater(codec, data, k - 1); }
    }
  }

  lemma HeadersFrom(data: seq<bv8>, n: nat)
    requires 0 < n <= |data|
    ensures HeadersAt(data, n) == [HeaderAt(data, 0)] + HeadersAt(data[1..], n - 1)
  {
  }

  lemma {:induction false} TocRead(codec: Codec, data: seq<bv8>, n: nat)
    requires HasToc(codec, data, n)
    ensures ReadToc(codec, data) == Ok((HeadersAt(data, n), data[n..]))
    decreases n
  {
    HeadersFrom(data, n);
    if n > 1 {
      GoesOnLater(codec, data, n - 1);
      EntryLater(codec, data, n - 2);
      TocRead(codec, data[1..], n - 1);
      assert data[1..][n - 1..] == data[n..];
    } else {
      assert HeadersAt(data, n) == [HeaderAt(data, 0)];
    }
  }

  /** frame has the header, and its data is that many octets from start on. */
  ghost predicate IsFrameAt(codec: Codec, frame: Frame, header: Header, data: seq<bv8>, start: int) {
    var size := FrameBytes(codec, header.frameType);
    && frame.frameType == header.frameType && frame.quality == header.quality
    && size >= 0 && 0 <= start <= start + size <= |data| && frame.data == data[start..start + size]
  }

  lemma {:induction false} SpeechSizeFrom(codec: Codec, headers: seq<Header>)
    requires Sized(codec, headers)
    ensures SpeechSize(codec, headers) >= 0
  {
    if headers != [] { SpeechSizeFrom(codec, headers[1..]); }
  }

  lemma {:induction false} SpeechRead(codec: Codec, headers: seq<Header>, data: seq<bv8>)
    requires Sized(codec, headers)
    ensures var r := ReadSpeech(codec, headers, data);
      if SpeechSize(codec, headers) <= |data| then r.Ok? && |r.value| == |headers| else r == Err(SpeechDataTruncated)
    decreases |headers|
  {
    if headers != [] {
      var size := FrameBytes(codec, headers[0].frameType);
      SpeechSizeFrom(codec, headers[1..]);
      if size <= |data| { SpeechRead(codec, headers[1..], data[size..]); }
    }
  }

  lemma FirstSpeech(codec: Codec, headers: seq<Header>, data: seq<bv8>)
    requires Sized(codec, headers) && headers != [] && SpeechSize(codec, headers) <= |data|
    ensures var size := FrameBytes(codec, headers[0].frameType);
      && 0 <= size <= |data| && SpeechSize(codec, headers[1..]) <= |data[size..]|
      && var rest := ReadSpeech(codec, headers[1..], data[size..]);
      && rest.Ok? && |rest.value| == |headers| - 1
      && ReadSpeech(codec, headers, data) ==
         Ok([Frame(headers[0].frameType, headers[0].quality, data[..size])] + rest.value)
  {
    SpeechSizeFrom(codec, headers[1..]);
    SpeechRead(codec, headers[1..], data[FrameBytes(codec, headers[0].frameType)..]);
  }

  lemma SizeBefore(codec: Codec, headers: seq<Header>, k: nat)
    requires 0 < k <= |headers|
    ensures SpeechSize(codec, headers[..k]) ==
      FrameBytes(codec, headers[0].frameType) + SpeechSize(codec, headers[1..][..k - 1])
  {
    assert headers[..k][1..] == headers[1..][..k - 1];
  }

  lemma FrameLater(codec: Codec, frame: Frame, header: Header, data: seq<bv8>, n: nat, start: int)
    requires n <= |data| && IsFrameAt(codec, frame, header, data[n..], start)
    ensures IsFrameAt(codec, frame, header, data, n + start)
  {
    var size := FrameBytes(codec, header.frameType);
    assert data[n..][start..start + size] == data[n + start..n + start + size];
  }

  /** The frames stand one after the other, each behind the speech of those before it. */
  ghost predicate InARow(codec: Codec, frames: seq<Frame>, headers: seq<Header>, data: seq<bv8>) {
    && |frames| == |headers|
    && forall k :: 0 <= k < |frames| ==>
         IsFrameAt(codec, frames[k], headers[k], data, SpeechSize(codec, headers[..k]))
  }

  lemma LaterInRow(codec: Codec, frames: seq<Frame>, headers: seq<Header>, data: seq<bv8>, size: nat, k: nat)
    requires headers != [] && size == FrameBytes(codec, headers[0].frameType) <= |data|
    requires InARow(codec, frames, headers[1..], data[size..]) && k < |frames|
    ensures IsFrameAt(codec, frames[k], headers[k + 1], data, SpeechSize(codec, headers[..k + 1]))
  {
    SizeBefore(codec, headers, k + 1);
    FrameLater(codec, frames[k], headers[1..][k], data, size, SpeechSize(codec, headers[1..][..k]));
  }

  lemma OneBefore(codec: Codec, first: Frame, frames: seq<Frame>, headers: seq<Header>, data: seq<bv8>, size: nat)
    requires headers != [] && size == FrameBytes(codec, headers[0].frameType) <= |data|
    requires IsFrameAt(codec, first, headers[0], data, SpeechSize(codec, headers[..0]))
    requires InARow(codec, frames, headers[1..], data[size..])
    ensures InARow(codec, [first] + frames, headers, data)
  {
    var all := [first] + frames;
    forall k | 0 <= k < |all| ensures IsFrameAt(codec, all[k], headers[k], data, SpeechSize(codec, headers[..k])) {
      if k > 0 { LaterInRow(codec, frames, headers, data, size, k - 1); }
    }
  }

  lemma {:induction false} SpeechStands(codec: Codec, headers: seq<Header>, data: seq<bv8>)
    requires Sized(codec, headers) && SpeechSize(codec, headers) <= |data|
    ensures var r := ReadSpeech(codec, headers, data); r.Ok? && InARow(codec, r.value, headers, data)
    decreases |headers|
  {
    if headers != [] {
      var size := FrameBytes(codec, headers[0].frameType);
      FirstSpeech(codec, headers, data);
      var first := Frame(headers[0].frameType, headers[0].quality, data[..size]);
      SpeechStands(codec, headers[1..], data[size..]);
      assert IsFrameAt(codec, first, headers[0], data, SpeechSize(codec, headers[..0]));
      OneBefore(codec, first, ReadSpeech(codec, headers[1..], data[size..]).value, headers, data, size);
    }
  }

  lemma HeadersSized(codec: Codec, data: seq<bv8>, n: nat)
    requires HasToc(codec, data, n)
    ensures Sized(codec, HeadersAt(data, n))
  {
    forall k | 0 <= k < n ensures FrameBytes(codec, HeadersAt(data, n)[k].frameType) >= 0 {
      assert IsKnown(codec, data, k);
    }
  }

  lemma TocGives(codec: Codec, payload: seq<bv8>, n: nat)
    requires |payload| >= 2 && HasToc(codec, payload[1..], n)
    ensures if IsWhole(codec, payload[1..], n) then ReadPayload(codec, payload).Ok?
      else ReadPayload(codec, payload) == Err(SpeechDataTruncated)
  {
    var data := payload[1..];
    TocRead(codec, data, n);
    HeadersSized(codec, data, n);
    SpeechRead(codec, HeadersAt(data, n), data[n..]);
  }

  /** Each frame has its entry's type and quality, and its own part of the speech. */
  ghost predicate FramesStand(codec: Codec, data: seq<bv8>, frames: seq<Frame>)
    requires |frames| <= |data|
  {
    InARow(codec, frames, HeadersAt(data, |frames|), data[|frames|..])
  }

  /**
   r is what the payload says. Frames come out exactly if, after any octet,
   there is a table of contents and all the speech it announces; otherwise the
   error says what is missing, or that the codec has no such type.
   */
  ghost predicate IsReading(codec: Codec, payload: seq<bv8>, r: Result<seq<Frame>>) {
    if |payload| < 2 then r == Err(PayloadShort) else
      var data := payload[1..];
      && (r.Ok? <==> exists n: nat :: IsWhole(codec, data, n))
      && (r == Err(FrameTypeUnsupported) <==> NamesUnknown(codec, data))
      && (r == Err(TocTruncated) <==> GoesOn(codec, data, |data|))
      && match r
         case Ok(frames) => IsWhole(codec, data, |frames|) && FramesStand(codec, data, frames)
         case Err(e) => e in {FrameTypeUnsupported, TocTruncated, SpeechDataTruncated}
  }

  lemma FramesRead(codec: Codec, payload: seq<bv8>, n: nat)
    requires |payload| >= 2 && IsWhole(codec, payload[1..], n)
    ensures var r := ReadPayload(codec, payload);
      r.Ok? && |r.value| == n && FramesStand(codec, payload[1..], r.value)
  {
    var data := payload[1..];
    var headers, speech := HeadersAt(data, n), data[n..];
    TocRead(codec, data, n);
    HeadersSized(codec, data, n);
    SpeechStands(codec, headers, speech);
  }

  lemma UnknownFails(codec: Codec, data: seq<bv8>)
    requires NamesUnknown(codec, data)
    ensures ReadToc(codec, data) == Err(FrameTypeUnsupported)
  {
    var k: nat :| k < |data| && GoesOn(codec, data, k) && !IsKnown(codec, data, k);
    TocFails(codec, data, k);
  }

  lemma PayloadRead(codec: Codec, payload: seq<bv8>)
    ensures IsReading(codec, payload, ReadPayload(codec, payload))
  {
    if |payload| >= 2 {
      var data := payload[1..];
      var k := TocStops(codec, data);
      if k < |data| && HasToc(codec, data, k + 1) {
        TocGives(codec, payload, k + 1);
      } else {
        TocFails(codec, data, k);
        assert k < |data| ==> NamesUnknown(codec, data);
      }
      if NamesUnknown(codec, data) { UnknownFails(codec, data); }
      if GoesOn(codec, data, |data|) { TocFails(codec, data, |data|); }
      if n: nat :| IsWhole(codec, data, n) { FramesRead(codec, payload, n); }
    }
  }

  lemma OneToc(codec: Codec, data: seq<bv8>, m: nat, n: nat)
    requires HasToc(codec, data, m) && HasToc(codec, data, n)
    ensures m == n
  {
  }

  /** A payload says one thing only. */
  lemma OneReading(codec: Codec, payload: seq<bv8>, a: Result<seq<Frame>>, b: Result<seq<Frame>>)
    requires IsReading(codec, payload, a) && IsReading(codec, payload, b)
    ensures a == b
  {
    if a.Ok? {
      assert b.Ok?;
      OneToc(codec, payload[1..], |a.value|, |b.value|);
      assert a.value == b.value;
    }
  }

  // ----- the methods -----

  /** headers have been read, and the table goes on at rest if there is more. */
  function TocFrom(codec: Codec, headers: seq<Header>, more: bool, rest: seq<bv8>): Result<(seq<Header>, seq<bv8>)> {
    if !more then Ok((headers, rest)) else
      match ReadToc(codec, rest)
      case Ok((hs, after)) => Ok((headers + hs, after))
      case Err(e) => Err(e)
  }

  lemma TocStep(codec: Codec, headers: seq<Header>, data: seq<bv8>)
    requires data != [] && FrameBytes(codec, TypeOf(data[0])) >= 0
    ensures TocFrom(codec, headers, true, data) ==
      TocFrom(codec, headers + [Header(TypeOf(data[0]), QualityOf(data[0]))], MoreAfter(data[0]), data[1..])
  {
    var header := Header(TypeOf(data[0]), QualityOf(data[0]));
    var rec := ReadToc(codec, data[1..]);
    if MoreAfter(data[0]) && rec.Ok? {
      assert headers + ([header] + rec.value.0) == headers + [header] + rec.value.0;
    }
  }

  method ReadHeaders(codec: Codec, payload: seq<bv8>) returns (r: Result<(seq<Header>, nat)>)
    requires |payload| >= 2
    ensures match r
      case Ok((headers, offset)) => offset <= |payload| &&
        ReadToc(codec, payload[1..]) == Ok((headers, payload[offset..]))
      case Err(e) => ReadToc(codec, payload[1..]) == Err(e)
  {
    var headers: seq<Header>, offset, hasMore := [], 1, true;
    ghost var whole := ReadToc(codec, payload[1..]);
    assert whole.Ok? ==> [] + whole.value.0 == whole.value.0;
    while hasMore
      invariant 1 <= offset <= |payload|
      invariant TocFrom(codec, headers, hasMore, payload[offset..]) == whole
      decreases |payload| - offset, hasMore
    {
      if offset >= |payload| {
        return Err(TocTruncated);
      }
      var toc := payload[offset];
      var size := FrameBytes(codec, TypeOf(toc));
      if size < 0 {
        return Err(FrameTypeUnsupported);
      }
      TocStep(codec, headers, payload[offset..]);
      offset := offset + 1;
      hasMore := MoreAfter(toc);
      headers := headers + [Header(TypeOf(toc), QualityOf(toc))];
    }
    r := Ok((headers, offset));
  }

  lemma SpeechStep(codec: Codec, frames: seq<Frame>, headers: seq<Header>, i: nat, data: seq<bv8>)
    requires Sized(codec, headers) && i < |headers|
    ensures var size := FrameBytes(codec, headers[i].frameType);
      PrependedFrames(frames, ReadSpeech(codec, headers[i..], data)) ==
      if size > |data| then Err(SpeechDataTruncated)
      else PrependedFrames(frames + [Frame(headers[i].frameType, headers[i].quality, data[..size])],
                           ReadSpeech(codec, headers[i + 1..], data[size..]))
  {
    var size := FrameBytes(codec, headers[i].frameType);
    assert headers[i..][0] == headers[i] && headers[i..][1..] == headers[i + 1..];
    if size <= |data| {
      var frame, rec := Frame(headers[i].frameType, headers[i].quality, data[..size]),
        ReadSpeech(codec, headers[i + 1..], data[size..]);
      if rec.Ok? {
        assert frames + ([frame] + rec.value) == frames + [frame] + rec.value;
      }
    }
  }

  method ReadFrames(codec: Codec, headers: seq<Header>, payload: seq<bv8>, start: nat) returns (r: Result<seq<Frame>>)
    requires start <= |payload| && Sized(codec, headers)
    ensures r == ReadSpeech(codec, headers, payload[start..])
  {
    var frames: seq<Frame>, offset := [], start;
    ghost var whole := ReadSpeech(codec, headers, payload[start..]);
    assert headers[0..] == headers;
    assert whole.Ok? ==> [] + whole.value == whole.value;
    for i := 0 to |headers|
      invariant start <= offset <= |payload|
      invariant PrependedFrames(frames, ReadSpeech(codec, headers[i..], payload[offset..])) == whole
    {
      var end := offset + FrameBytes(codec, headers[i].frameType);
      SpeechStep(codec, frames, headers, i, payload[offset..]);
      if end > |payload| {
        return Err(SpeechDataTruncated);
      }
      assert payload[offset..][..end - offset] == payload[offset..end] &&
        payload[offset..][end - offset..] == payload[end..];
      frames := frames + [Frame(headers[i].frameType, headers[i].quality, payload[offset..end])];
      offset := end;
    }
    assert frames + [] == frames;
    r := Ok(frames);
  }

  method UnmarshalOctetAligned(codec: Codec, payload: seq<bv8>) returns (r: Result<seq<Frame>>)
    ensures r == ReadPayload(codec, payload) && IsReading(codec, payload, r)
  {
    PayloadRead(codec, payload);
    if |payload| < 2 {
      return Err(PayloadShort);
    }
    TocIsSized(codec, payload[1..]);
    var headers := ReadHeaders(codec, payload);
    match headers
    case Err(e) => r := Err(e);
    case Ok((hs, offset)) => r := ReadFrames(codec, hs, payload, offset);
  }

  // ----- the round trip -----

  lemma TocReadOne(codec: Codec, f: Frame, more: bool, rest: seq<bv8>)
    requires 0 <= f.frameType < 16 && FrameBytes(codec, f.frameType) >= 0
    ensures ReadToc(codec, [TocByte(f, more)] + rest) ==
      TocFrom(codec, [Header(f.frameType, f.quality)], more, rest)
  {
    TocByteRoundTrip(f, more);
    var data := [TocByte(f, more)] + rest;
    assert data[0] == TocByte(f, more) && data[1..] == rest;
  }

  lemma HeadIsSized(codec: Codec, frames: seq<Frame>)
    requires frames != [] && Faults(codec, frames) == []
    ensures |frames[0].data| == FrameBytes(codec, frames[0].frameType) && Faults(codec, frames[1..]) == []
  {
    TablesAgree(codec, frames[0].frameType);
  }

  lemma {:induction false} TocRoundTrip(codec: Codec, frames: seq<Frame>, rest: seq<bv8>)
    requires frames != [] && Faults(codec, frames) == []
    requires forall i :: 0 <= i < |frames| ==> 0 <= frames[i].frameType < 16
    ensures ReadToc(codec, TocOctets(frames) + rest) == Ok((Headers(frames), rest))
    decreases |frames|
  {
    var f, tail := frames[0], frames[1..];
    var more := |frames| > 1;
    HeadIsSized(codec, frames);
    Join([TocByte(f, more)], TocOctets(tail), rest);
    TocReadOne(codec, f, more, TocOctets(tail) + rest);
    HeadersTail(frames);
    if more {
      TocRoundTrip(codec, tail, rest);
    } else {
      assert Headers(frames) == [Header(f.frameType, f.quality)];
      assert TocOctets(tail) + rest == rest;
    }
  }

  lemma SpeechReadOne(codec: Codec, headers: seq<Header>, f: Frame, tail: seq<bv8>)
    requires Sized(codec, headers) && headers != [] && |f.data| == FrameBytes(codec, headers[0].frameType)
    requires headers[0] == Header(headers[0].frameType, f.quality) && f.frameType == headers[0].frameType
    ensures ReadSpeech(codec, headers, f.data + tail) == PrependedFrames([f], ReadSpeech(codec, headers[1..], tail))
  {
    assert (f.data + tail)[..|f.data|] == f.data && (f.data + tail)[|f.data|..] == tail;
  }

  lemma {:induction false} SpeechRoundTrip(codec: Codec, frames: seq<Frame>)
    requires Faults(codec, frames) == [] && forall i :: 0 <= i < |frames| ==> 0 <= frames[i].frameType < 16
    requires Sized(codec, Headers(frames))
    ensures ReadSpeech(codec, Headers(frames), SpeechOctets(frames)) == Ok(frames)
    decreases |frames|
  {
    if frames != [] {
      HeadersTail(frames);
      HeadIsSized(codec, frames);
      SpeechRoundTrip(codec, frames[1..]);
      SpeechReadOne(codec, Headers(frames), frames[0], SpeechOctets(frames[1..]));
      assert frames == [frames[0]] + frames[1..];
    }
  }

  lemma AfterFirst(toc: seq<bv8>, speech: seq<bv8>)
    ensures ([FIRST] + toc + speech)[1..] == toc + speech
  {
  }

  /** Unmarshalling a marshalled payload gives the frames back, to the last bit. */
  lemma OctetAlignedRoundTrip(codec: Codec, frames: seq<Frame>)
    requires frames != [] && Faults(codec, frames) == []
    ensures ReadPayload(codec, PayloadOctets(frames)) == Ok(frames) && PayloadOctets(frames)[0] == 0xF0
  {
    NoFaults(codec, frames);
    var toc, speech := TocOctets(frames), SpeechOctets(frames);
    AfterFirst(toc, speech);
    TocRoundTrip(codec, frames, speech);
    TocIsSized(codec, toc + speech);
    SpeechRoundTrip(codec, frames);
  }
}
