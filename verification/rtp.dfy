/**
 The downlink RTP rewriter: it renumbers packets, drops late ones and fills
 gaps of the source's clock with silence (sections 5.1 and 6 of RFC 3550).
 */
module RtpRewriter {

  type u16 = x: int | 0 <= x < 0x1_0000
  type u32 = x: int | 0 <= x < 0x1_0000_0000

  const U16 := 0x1_0000
  const U32 := 0x1_0000_0000
  const MAX_SILENCE_GAP := 8000
  const PCMU_PAYLOAD_TYPE := 0
  const SILENCE: bv8 := 0xFF

  datatype Packet = Packet(payloadType: nat, sequence: u16, timestamp: u32, ssrc: u32, payload: seq<bv8>)

  datatype State = State(sequence: u16, timestamp: u32, ssrc: u32,
                         seen: bool, lastSequence: u16, lastTimestamp: u32, lastSamples: u32)

  function Samples(payload: seq<bv8>): u32 {
    |payload| % U32
  }

  /** Ahead by less than half the number space. */
  predicate SequenceAhead(current: u16, previous: u16) {
    var delta := (current - previous) % U16;
    delta != 0 && delta < 0x8000
  }

  /** A state the rewriter can be in: a seen packet was not empty. */
  predicate Proper(st: State) {
    st.seen ==> st.lastSamples > 0
  }

  function Delta(st: State, p: Packet): u32 {
    (p.timestamp - st.lastTimestamp) % U32
  }

  predicate Accepts(st: State, p: Packet) {
    Samples(p.payload) > 0 && (st.seen ==> SequenceAhead(p.sequence, st.lastSequence))
  }

  /** How much silence goes before an accepted packet. */
  function Gap(st: State, p: Packet): nat {
    if st.seen && Delta(st, p) > st.lastSamples && Delta(st, p) - st.lastSamples <= MAX_SILENCE_GAP
    then Delta(st, p) - st.lastSamples else 0
  }

  function SilentPayload(n: nat): seq<bv8> {
    seq(n, _ => SILENCE)
  }

  /** The gap in packets of the last packet's size, the last one shorter if need be. */
  function SilentPayloads(samples: nat, size: nat): seq<seq<bv8>>
    requires samples > 0 ==> size > 0
  {
    if samples == 0 then []
    else if samples <= size then [SilentPayload(samples)]
    else [SilentPayload(size)] + SilentPayloads(samples - size, size)
  }

  function Payloads(st: State, p: Packet): seq<seq<bv8>>
    requires Proper(st)
  {
    if Accepts(st, p) then SilentPayloads(Gap(st, p), st.lastSamples) + [p.payload] else []
  }

  function Stamped(st: State, payload: seq<bv8>): Packet {
    Packet(PCMU_PAYLOAD_TYPE, st.sequence, st.timestamp, st.ssrc, payload)
  }

  function Advanced(st: State, payload: seq<bv8>): State {
    st.(sequence := (st.sequence + 1) % U16, timestamp := (st.timestamp + Samples(payload)) % U32)
  }

  function StampedAll(st: State, payloads: seq<seq<bv8>>): seq<Packet>
    decreases |payloads|
  {
    if payloads == [] then [] else [Stamped(st, payloads[0])] + StampedAll(Advanced(st, payloads[0]), payloads[1..])
  }

  function AdvancedAll(st: State, payloads: seq<seq<bv8>>): State
    decreases |payloads|
  {
    if payloads == [] then st else AdvancedAll(Advanced(st, payloads[0]), payloads[1..])
  }

  /** The packets written for p, and the state after it. */
  function Written(st: State, p: Packet): seq<Packet>
    requires Proper(st)
  {
    StampedAll(st, Payloads(st, p))
  }

  function Next(st: State, p: Packet): (u: State)
    requires Proper(st)
    ensures Proper(u)
  {
    var u := AdvancedAll(st, Payloads(st, p));
    if Accepts(st, p)
    then u.(seen := true, lastSequence := p.sequence, lastTimestamp := p.timestamp, lastSamples := Samples(p.payload))
    else st
  }

  // ----- the rewriter as it runs -----

  /** Where packets go; a write may fail, and then nothing is delivered. */
  class Sink {
    var packets: seq<Packet>

    constructor ()
      ensures packets == []
    {
      packets := [];
    }

    method Write(p: Packet) returns (ok: bool)
      modifies this
      ensures packets == if ok then old(packets) + [p] else old(packets)
    {
      ok := *;
      if ok {
        packets := packets + [p];
      }
    }
  }

  lemma Step(st: State, payloads: seq<seq<bv8>>, i: nat)
    requires i < |payloads|
    ensures AdvancedAll(st, payloads[..i + 1]) == Advanced(AdvancedAll(st, payloads[..i]), payloads[i])
    ensures StampedAll(st, payloads[..i + 1]) ==
      StampedAll(st, payloads[..i]) + [Stamped(AdvancedAll(st, payloads[..i]), payloads[i])]
    decreases i
  {
    if i == 0 {
      assert payloads[..1] == [payloads[0]];
    } else {
      assert payloads[..i + 1][1..] == payloads[1..][..i] && payloads[..i][1..] == payloads[1..][..i - 1];
      Step(Advanced(st, payloads[0]), payloads[1..], i - 1);
    }
  }

  lemma LastStep(st: State, silence: seq<seq<bv8>>, payload: seq<bv8>)
    ensures var all := silence + [payload];
      && all[..|silence|] == silence && all[..|silence| + 1] == all
      && AdvancedAll(st, all) == Advanced(AdvancedAll(st, silence), payload)
      && StampedAll(st, all) == StampedAll(st, silence) + [Stamped(AdvancedAll(st, silence), payload)]
  {
    var all := silence + [payload];
    assert all[..|silence|] == silence && all[..|silence| + 1] == all;
    Step(st, all, |silence|);
  }

  /** All packets before some point were delivered, the one at that point was stamped but not delivered. */
  ghost predicate Stopped(st: State, payloads: seq<seq<bv8>>, before: seq<Packet>, u: State, packets: seq<Packet>) {
    exists i :: 0 <= i < |payloads| && StoppedAt(st, payloads, before, u, packets, i)
  }

  ghost predicate StoppedAt(st: State, payloads: seq<seq<bv8>>, before: seq<Packet>, u: State, packets: seq<Packet>,
                            i: nat)
    requires i < |payloads|
  {
    packets == before + StampedAll(st, payloads[..i]) && u == AdvancedAll(st, payloads[..i + 1])
  }

  /** The first i payloads have been sent. */
  ghost predicate Sent(st: State, payloads: seq<seq<bv8>>, before: seq<Packet>, u: State, packets: seq<Packet>,
                       i: nat) {
    && i <= |payloads|
    && u == AdvancedAll(st, payloads[..i]) && packets == before + StampedAll(st, payloads[..i])
  }

  lemma SentNone(st: State, payloads: seq<seq<bv8>>, before: seq<Packet>)
    ensures Sent(st, payloads, before, st, before, 0)
  {
    assert payloads[..0] == [] && before + [] == before;
  }

  lemma SentAll(st: State, payloads: seq<seq<bv8>>, before: seq<Packet>, u: State, packets: seq<Packet>)
    requires Sent(st, payloads, before, u, packets, |payloads|)
    ensures u == AdvancedAll(st, payloads) && packets == before + StampedAll(st, payloads)
  {
    assert payloads[..|payloads|] == payloads;
  }

  /** Sending the next one, or failing to. */
  lemma SentOneMore(st: State, payloads: seq<seq<bv8>>, before: seq<Packet>, u: State, packets: seq<Packet>, i: nat)
    requires Sent(st, payloads, before, u, packets, i) && i < |payloads|
    ensures Sent(st, payloads, before, Advanced(u, payloads[i]), packets + [Stamped(u, payloads[i])], i + 1)
    ensures Stopped(st, payloads, before, Advanced(u, payloads[i]), packets)
  {
    Step(st, payloads, i);
    assert StoppedAt(st, payloads, before, Advanced(u, payloads[i]), packets, i);
  }

  lemma NextSilence(payloads: seq<seq<bv8>>, i: nat, left: nat, size: nat)
    requires 0 < left && 0 < size && i <= |payloads| && SilentPayloads(left, size) == payloads[i..]
    ensures var n := if left < size then left else size;
      i < |payloads| && payloads[i] == SilentPayload(n) && SilentPayloads(left - n, size) == payloads[i + 1..]
  {
    assert payloads[i..][0] == payloads[i] && payloads[i..][1..] == payloads[i + 1..];
  }

  /** The number d steps after a. */
  function Plus(a: u16, d: nat): u16 {
    (a + d) % 0x1_0000
  }

  /** b comes after a by less than half the number space, all modulo 2^16. */
  ghost predicate ComesAfter(a: u16, b: u16) {
    exists d: nat :: 0 < d < 0x8000 && b == Plus(a, d)
  }

  /** There is something in the packet, and it comes after the last one heard. */
  ghost predicate IsHeard(seen: bool, last: u16, p: Packet) {
    |p.payload| % 0x1_0000_0000 != 0 && (seen ==> ComesAfter(last, p.sequence))
  }

  lemma AheadComesAfter(current: u16, previous: u16)
    ensures SequenceAhead(current, previous) <==> ComesAfter(previous, current)
  {
    var delta := (current - previous) % U16;
    assert current == Plus(previous, delta);
    forall d: nat | d < U16 && current == Plus(previous, d) ensures d == delta {
    }
  }

  /** What one packet does: it is written last and remembered, or nothing happens. */
  ghost predicate HearsPacket(st: State, p: Packet, before: seq<Packet>, u: State, packets: seq<Packet>) {
    if IsHeard(st.seen, st.lastSequence, p) then
      && |packets| > |before| && packets[|packets| - 1].payload == p.payload
      && u.seen && u.lastSequence == p.sequence && u.lastTimestamp == p.timestamp
      && u.lastSamples == |p.payload| % 0x1_0000_0000
    else packets == before && u == st
  }

  lemma HeardIsWritten(st: State, p: Packet, before: seq<Packet>)
    requires Proper(st)
    ensures HearsPacket(st, p, before, Next(st, p), before + Written(st, p))
  {
    AheadComesAfter(p.sequence, st.lastSequence);
    if Accepts(st, p) {
      LastStep(st, SilentPayloads(Gap(st, p), st.lastSamples), p.payload);
    }
  }

  class PcmuDownlinkRewriter {
    var sequenceNumber: u16
    var timestamp: u32
    const ssrc: u32
    var seen: bool
    var lastSourceSequenceNumber: u16
    var lastSourceTimestamp: u32
    var lastSourceSamples: u32

    constructor (sequenceNumber: u16, timestamp: u32, ssrc: u32)
      ensures Now() == State(sequenceNumber, timestamp, ssrc, false, 0, 0, 0)
    {
      this.sequenceNumber, this.timestamp, this.ssrc := sequenceNumber, timestamp, ssrc;
      seen, lastSourceSequenceNumber, lastSourceTimestamp, lastSourceSamples := false, 0, 0, 0;
    }

    function Now(): State
      reads this
    {
      State(sequenceNumber, timestamp, ssrc, seen, lastSourceSequenceNumber, lastSourceTimestamp, lastSourceSamples)
    }

    method NextPacket(payload: seq<bv8>) returns (p: Packet)
      modifies this`sequenceNumber, this`timestamp
      ensures p == Stamped(old(Now()), payload) && Now() == Advanced(old(Now()), payload)
    {
      p := Packet(PCMU_PAYLOAD_TYPE, sequenceNumber, timestamp, ssrc, payload);
      sequenceNumber := (sequenceNumber + 1) % U16;
      timestamp := (timestamp + |payload| % U32) % U32;
    }

    /** Sends silence packet by packet; stops at the first failed write. */
    method WriteSilence(samples: nat, packetSamples: nat, sink: Sink) returns (ok: bool)
      requires samples > 0 ==> packetSamples > 0
      modifies this`sequenceNumber, this`timestamp, sink
      ensures ok ==>
        && Now() == AdvancedAll(old(Now()), SilentPayloads(samples, packetSamples))
        && sink.packets == old(sink.packets) + StampedAll(old(Now()), SilentPayloads(samples, packetSamples))
      ensures !ok ==>
        Stopped(old(Now()), SilentPayloads(samples, packetSamples), old(sink.packets), Now(), sink.packets)
    {
      ghost var start, before := Now(), sink.packets;
      ghost var payloads, i := SilentPayloads(samples, packetSamples), 0;
      var left: nat := samples;
      SentNone(start, payloads, before);
      assert payloads[0..] == payloads;
      while left > 0
        invariant 0 <= i <= |payloads| && SilentPayloads(left, packetSamples) == payloads[i..]
        invariant Sent(start, payloads, before, Now(), sink.packets, i)
        decreases left
      {
        var n := if left < packetSamples then left else packetSamples;
        NextSilence(payloads, i, left, packetSamples);
        SentOneMore(start, payloads, before, Now(), sink.packets, i);
        var p := NextPacket(SilentPayload(n));
        var sent := sink.Write(p);
        if !sent {
          return false;
        }
        i, left := i + 1, left - n;
      }
      SentAll(start, payloads, before, Now(), sink.packets);
      ok := true;
    }

    /** Fills the gap before p unless it is too long. */
    method FillGap(p: Packet, sink: Sink) returns (ok: bool)
      requires Proper(Now())
      modifies this`sequenceNumber, this`timestamp, sink
      ensures var silence := SilentPayloads(Gap(old(Now()), p), old(Now()).lastSamples);
        if ok then Now() == AdvancedAll(old(Now()), silence) &&
          sink.packets == old(sink.packets) + StampedAll(old(Now()), silence)
        else Stopped(old(Now()), silence, old(sink.packets), Now(), sink.packets)
    {
      if seen {
        var sourceDelta := (p.timestamp - lastSourceTimestamp) % U32;
        if sourceDelta > lastSourceSamples {
          var gap := sourceDelta - lastSourceSamples;
          if gap <= MAX_SILENCE_GAP {
            ok := WriteSilence(gap, lastSourceSamples, sink);
            return;
          }
        }
      }
      ok := true;
    }

    /** Every packet is numbered, silence first; late and empty packets are dropped. */
    method Rewrite(p: Packet, sink: Sink) returns (ok: bool)
      requires Proper(Now())
      modifies this, sink
      ensures ok ==> Now() == Next(old(Now()), p) && sink.packets == old(sink.packets) + Written(old(Now()), p)
      ensures !ok ==> Broken(old(Now()), p, old(sink.packets), Now(), sink.packets)
      ensures Proper(Now())
    {
      ghost var st, before := Now(), sink.packets;
      var samples := |p.payload| % U32;
      if samples == 0 || (seen && !SequenceAhead(p.sequence, lastSourceSequenceNumber)) {
        return true;
      }
      ghost var silence := SilentPayloads(Gap(st, p), st.lastSamples);
      ok := FillGap(p, sink);
      if !ok {
        StoppedKeeps(st, silence, before, Now(), sink.packets);
        return;
      }
      LastStep(st, silence, p.payload);
      AdvancedKeeps(st, silence);
      seen, lastSourceSequenceNumber, lastSourceTimestamp, lastSourceSamples := true, p.sequence, p.timestamp, samples;
      var out := NextPacket(p.payload);
      ok := sink.Write(out);
    }
  }

  /**
   A write failed: in the silence, with the source's last packet still the old
   one, or the packet's own, with it the new one.
   */
  ghost predicate Broken(st: State, p: Packet, before: seq<Packet>, u: State, packets: seq<Packet>)
    requires Proper(st)
  {
    var silence := SilentPayloads(Gap(st, p), st.lastSamples);
    && Accepts(st, p)
    && (Stopped(st, silence, before, u, packets) || (u == Next(st, p) && packets == before + StampedAll(st, silence)))
  }

  lemma StoppedKeeps(st: State, payloads: seq<seq<bv8>>, before: seq<Packet>, u: State, packets: seq<Packet>)
    requires Stopped(st, payloads, before, u, packets)
    ensures u == st.(sequence := u.sequence, timestamp := u.timestamp)
  {
    var i :| 0 <= i < |payloads| && StoppedAt(st, payloads, before, u, packets, i);
    AdvancedKeeps(st, payloads[..i + 1]);
  }

  /** Stamping touches only the sequence number and the timestamp. */
  lemma {:induction false} AdvancedKeeps(st: State, payloads: seq<seq<bv8>>)
    ensures AdvancedAll(st, payloads) ==
            st.(sequence := AdvancedAll(st, payloads).sequence, timestamp := AdvancedAll(st, payloads).timestamp)
    decreases |payloads|
  {
    if payloads != [] {
      AdvancedKeeps(Advanced(st, payloads[0]), payloads[1..]);
    }
  }

  // ----- whole streams -----

  function Total(payloads: seq<seq<bv8>>): nat {
    if payloads == [] then 0 else Samples(payloads[0]) + Total(payloads[1..])
  }

  lemma {:induction false} AdvancedBy(st: State, payloads: seq<seq<bv8>>)
    ensures var u := AdvancedAll(st, payloads);
      && u.sequence == (st.sequence + |payloads|) % U16
      && u.timestamp == (st.timestamp + Total(payloads)) % U32
    decreases |payloads|
  {
    if payloads != [] {
      AdvancedBy(Advanced(st, payloads[0]), payloads[1..]);
      ModAdd(st.sequence + 1, |payloads| - 1, U16);
      ModAdd(st.timestamp + Samples(payloads[0]), Total(payloads[1..]), U32);
    }
  }

  lemma ModAdd(a: int, b: int, m: int)
    requires m > 0
    ensures (a % m + b) % m == (a + b) % m
  {
    var q := a / m;
    assert a + b == (a % m + b) + q * m;
    ModShift(a % m + b, q, m);
  }

  lemma ModShift(x: int, q: int, m: int)
    requires m > 0
    ensures (x + q * m) % m == x % m
  {
    var k := x / m;
    assert x + q * m == (k + q) * m + x % m;
    RemainderOf(x + q * m, k + q, x % m, m);
  }

  lemma RemainderOf(x: int, k: int, r: int, m: int)
    requires m > 0 && 0 <= r < m && x == k * m + r
    ensures x % m == r
  {
    var q := x / m;
    assert x == q * m + x % m;
    if q < k { Grows(q, k, m); }
    if k < q { Grows(k, q, m); }
  }

  lemma Grows(a: int, b: int, m: int)
    requires a < b && m > 0
    ensures a * m + m <= b * m
  {
    var d := b - a - 1;
    assert d * m >= 0;
    assert b * m == a * m + m + d * m;
  }

  /** All payloads written for a stream, in order. */
  function StreamPayloads(st: State, ps: seq<Packet>): seq<seq<bv8>>
    requires Proper(st)
    decreases |ps|
  {
    if ps == [] then [] else Payloads(st, ps[0]) + StreamPayloads(Next(st, ps[0]), ps[1..])
  }

  function StreamWritten(st: State, ps: seq<Packet>): seq<Packet>
    requires Proper(st)
    decreases |ps|
  {
    if ps == [] then [] else Written(st, ps[0]) + StreamWritten(Next(st, ps[0]), ps[1..])
  }

  function After(st: State, ps: seq<Packet>): (u: State)
    requires Proper(st)
    ensures Proper(u)
    decreases |ps|
  {
    if ps == [] then st else After(Next(st, ps[0]), ps[1..])
  }

  /** Stamping depends on the clock and the counter only. */
  lemma {:induction false} SameStamps(st: State, u: State, payloads: seq<seq<bv8>>)
    requires st.sequence == u.sequence && st.timestamp == u.timestamp && st.ssrc == u.ssrc
    ensures StampedAll(st, payloads) == StampedAll(u, payloads)
    decreases |payloads|
  {
    if payloads != [] {
      SameStamps(Advanced(st, payloads[0]), Advanced(u, payloads[0]), payloads[1..]);
    }
  }

  lemma {:induction false} StampedConcat(st: State, a: seq<seq<bv8>>, b: seq<seq<bv8>>)
    ensures StampedAll(st, a + b) == StampedAll(st, a) + StampedAll(AdvancedAll(st, a), b)
    decreases |a|
  {
    if a == [] {
      assert a + b == b;
    } else {
      assert (a + b)[1..] == a[1..] + b;
      StampedConcat(Advanced(st, a[0]), a[1..], b);
    }
  }

  /** The output is one run of stamps over all payloads: no state but clock and counter matters. */
  lemma {:induction false} StreamIsOneRun(st: State, ps: seq<Packet>)
    requires Proper(st)
    ensures StreamWritten(st, ps) == StampedAll(st, StreamPayloads(st, ps))
    decreases |ps|
  {
    if ps != [] {
      var first, rest := Payloads(st, ps[0]), StreamPayloads(Next(st, ps[0]), ps[1..]);
      StreamIsOneRun(Next(st, ps[0]), ps[1..]);
      AdvancedKeeps(st, first);
      SameStamps(Next(st, ps[0]), AdvancedAll(st, first), rest);
      StampedConcat(st, first, rest);
    }
  }

  lemma {:induction false} StampedAt(st: State, payloads: seq<seq<bv8>>, k: nat)
    requires k < |payloads|
    ensures |StampedAll(st, payloads)| == |payloads|
    ensures StampedAll(st, payloads)[k] == Stamped(AdvancedAll(st, payloads[..k]), payloads[k])
    decreases k
  {
    StampedLength(st, payloads);
    if k > 0 {
      StampedAt(Advanced(st, payloads[0]), payloads[1..], k - 1);
      assert payloads[..k][1..] == payloads[1..][..k - 1];
    }
  }

  lemma {:induction false} StampedLength(st: State, payloads: seq<seq<bv8>>)
    ensures |StampedAll(st, payloads)| == |payloads|
    decreases |payloads|
  {
    if payloads != [] {
      StampedLength(Advanced(st, payloads[0]), payloads[1..]);
    }
  }

  /**
   The k-th packet of the whole output is numbered start + k and stamped start
   + the samples before it, whatever came in, late, early, lost or duplicated.
   */
  lemma StreamNumbering(st: State, ps: seq<Packet>, k: nat)
    requires Proper(st) && k < |StreamWritten(st, ps)|
    ensures var payloads := StreamPayloads(st, ps);
      && |payloads| == |StreamWritten(st, ps)|
      && StreamWritten(st, ps)[k] ==
         Packet(PCMU_PAYLOAD_TYPE, (st.sequence + k) % U16, (st.timestamp + Total(payloads[..k])) % U32, st.ssrc,
           payloads[k])
  {
    var payloads := StreamPayloads(st, ps);
    StreamIsOneRun(st, ps);
    StampedLength(st, payloads);
    StampedAt(st, payloads, k);
    AdvancedBy(st, payloads[..k]);
    AdvancedKeeps(st, payloads[..k]);
  }

  /** Silence adds up to the gap, in full packets but the last. */
  lemma {:induction false} SilenceAddsUp(samples: nat, size: nat)
    requires samples > 0 ==> size > 0
    requires samples < U32
    ensures var ps := SilentPayloads(samples, size);
      && Total(ps) == samples
      && (forall i :: 0 <= i < |ps| ==> 0 < |ps[i]| <= size && forall k :: 0 <= k < |ps[i]| ==> ps[i][k] == SILENCE)
      && (forall i :: 0 <= i < |ps| - 1 ==> |ps[i]| == size)
    decreases samples
  {
    var ps := SilentPayloads(samples, size);
    if samples == 0 {
    } else if samples <= size {
      assert ps[1..] == [];
    } else {
      SilenceAddsUp(samples - size, size);
      assert ps[1..] == SilentPayloads(samples - size, size);
    }
  }

  /** The packets of a stream that are heard: those that have come in order so far. */
  ghost function Heard(seen: bool, last: u16, ps: seq<Packet>): seq<Packet>
    decreases |ps|
  {
    if ps == [] then []
    else if IsHeard(seen, last, ps[0]) then [ps[0]] + Heard(true, ps[0].sequence, ps[1..])
    else Heard(seen, last, ps[1..])
  }

  ghost predicate IsSilence(payload: seq<bv8>) {
    forall k :: 0 <= k < |payload| ==> payload[k] == 0xFF
  }

  /** The output has the packets' payloads at these places, in their order, and silence elsewhere. */
  ghost predicate PlaysAt(out: seq<Packet>, heard: seq<Packet>, places: seq<nat>) {
    && |places| == |heard|
    && (forall i :: 0 <= i < |places| ==> places[i] < |out| && out[places[i]].payload == heard[i].payload)
    && (forall i, j :: 0 <= i < j < |places| ==> places[i] < places[j])
    && forall k :: 0 <= k < |out| && k !in places ==> IsSilence(out[k].payload)
  }

  lemma SilenceFirst(st: State, p: Packet)
    requires Proper(st) && IsHeard(st.seen, st.lastSequence, p)
    ensures var out := Written(st, p); PlaysAt(out, [p], [|out| - 1])
  {
    var silence := SilentPayloads(Gap(st, p), st.lastSamples);
    var out, places := Written(st, p), [|Written(st, p)| - 1];
    HeardIsWritten(st, p, []);
    AheadComesAfter(p.sequence, st.lastSequence);
    LastStep(st, silence, p.payload);
    SilenceAddsUp(Gap(st, p), st.lastSamples);
    StampedLength(st, silence);
    forall k | 0 <= k < |out| && k !in places ensures IsSilence(out[k].payload) {
      assert places[0] == |out| - 1;
      StampedAt(st, silence, k);
    }
  }

  /** The places of the rest, as they are in the whole output. */
  function Shifted(places: seq<nat>, n: nat): seq<nat> {
    seq(|places|, i requires 0 <= i < |places| => places[i] + n)
  }

  lemma InShifted(places: seq<nat>, n: nat, k: nat)
    ensures k in places ==> n + k in Shifted(places, n)
  {
    if k in places {
      var i :| 0 <= i < |places| && places[i] == k;
      assert Shifted(places, n)[i] == n + k;
    }
  }

  lemma PlaysOn(first: seq<Packet>, p: Packet, out: seq<Packet>, heard: seq<Packet>, places: seq<nat>)
    requires first != [] && PlaysAt(first, [p], [|first| - 1]) && PlaysAt(out, heard, places)
    ensures PlaysAt(first + out, [p] + heard, [|first| - 1] + Shifted(places, |first|))
  {
    var n, all := |first|, [|first| - 1] + Shifted(places, |first|);
    forall i | 0 <= i < |all| ensures all[i] < n + |out| && (first + out)[all[i]].payload == ([p] + heard)[i].payload {
      if i > 0 { assert all[i] == places[i - 1] + n; } else { assert [n - 1][0] == n - 1 && [p][0] == p; }
    }
    forall k | 0 <= k < n + |out| && k !in all ensures IsSilence((first + out)[k].payload) {
      if k < n {
        assert all[0] == n - 1;
      } else {
        InShifted(places, n, k - n);
      }
    }
  }

  /** Over any stream, the output is the payloads of the packets that come in order, with silence between them. */
  lemma {:induction false} StreamPlays(st: State, ps: seq<Packet>) returns (places: seq<nat>)
    requires Proper(st)
    ensures PlaysAt(StreamWritten(st, ps), Heard(st.seen, st.lastSequence, ps), places)
    decreases |ps|
  {
    if ps == [] {
      return [];
    }
    var first, next := Written(st, ps[0]), Next(st, ps[0]);
    HeardIsWritten(st, ps[0], []);
    places := StreamPlays(next, ps[1..]);
    var out, heard := StreamWritten(next, ps[1..]), Heard(next.seen, next.lastSequence, ps[1..]);
    if IsHeard(st.seen, st.lastSequence, ps[0]) {
      SilenceFirst(st, ps[0]);
      PlaysOn(first, ps[0], out, heard, places);
      places := [|first| - 1] + Shifted(places, |first|);
    } else {
      assert first + out == out;
    }
  }

  /** No packet is empty, and each comes after the one before it. */
  ghost predicate InOrder(seen: bool, last: u16, ps: seq<Packet>) {
    && (forall i :: 0 <= i < |ps| ==> |ps[i].payload| % 0x1_0000_0000 != 0)
    && (forall i :: 0 < i < |ps| ==> ComesAfter(ps[i - 1].sequence, ps[i].sequence))
    && (seen && ps != [] ==> ComesAfter(last, ps[0].sequence))
  }

  /** A source that sends in order, losses included, is heard to the last packet. */
  lemma {:induction false} InOrderIsHeard(seen: bool, last: u16, ps: seq<Packet>)
    requires InOrder(seen, last, ps)
    ensures Heard(seen, last, ps) == ps
    decreases |ps|
  {
    if ps != [] {
      forall i | 0 < i < |ps| - 1 ensures ComesAfter(ps[1..][i - 1].sequence, ps[1..][i].sequence) {
        assert ComesAfter(ps[i + 1 - 1].sequence, ps[i + 1].sequence);
      }
      InOrderIsHeard(true, ps[0].sequence, ps[1..]);
      assert ps == [ps[0]] + ps[1..];
    }
  }

  /** Output minus source timestamp of the last accepted packet. */
  function Offset(st: State): u32 {
    (st.timestamp - st.lastSamples - st.lastTimestamp) % U32
  }

  /** The packet neither overlaps its predecessor nor leaves too long a gap. */
  predicate Continues(st: State, p: Packet) {
    Delta(st, p) >= st.lastSamples && Delta(st, p) - st.lastSamples <= MAX_SILENCE_GAP
  }

  /** After an accepted packet, the offset is the one it was written with. */
  lemma OffsetOfAccepted(st: State, p: Packet)
    requires Proper(st) && Accepts(st, p)
    ensures var out := Written(st, p);
      && out != []
      && out[|out| - 1].payload == p.payload
      && out[|out| - 1].timestamp == (st.timestamp + Gap(st, p)) % U32
      && Offset(Next(st, p)) == (out[|out| - 1].timestamp - p.timestamp) % U32
  {
    var silence := SilentPayloads(Gap(st, p), st.lastSamples);
    LastStep(st, silence, p.payload);
    StampedLength(st, silence);
    SilenceAddsUp(Gap(st, p), st.lastSamples);
    AdvancedBy(st, silence);
    var mid := (st.timestamp + Gap(st, p)) % U32;
    var samples := Samples(p.payload);
    ModAdd(mid + samples, -samples - p.timestamp, U32);
  }

  /** A heard packet is stamped right behind its predecessor, but for a gap of at most 8000 samples in the source. */
  lemma StampFollowsSource(st: State, p: Packet, d: u32)
    requires Proper(st) && IsHeard(st.seen, st.lastSequence, p)
    requires st.seen ==> p.timestamp == (st.lastTimestamp + d) % 0x1_0000_0000
    ensures var out := Written(st, p);
      var gap := if st.seen && st.lastSamples < d <= st.lastSamples + 8000 then d - st.lastSamples else 0;
      out != [] && out[|out| - 1].timestamp == (st.timestamp + gap) % 0x1_0000_0000
  {
    AheadComesAfter(p.sequence, st.lastSequence);
    OffsetOfAccepted(st, p);
    if st.seen { DeltaOf(st.lastTimestamp, p.timestamp, d); }
  }

  lemma DeltaOf(last: u32, now: u32, d: u32)
    requires now == (last + d) % U32
    ensures (now - last) % U32 == d
  {
  }

  /** The offset is kept exactly by the packets that continue the stream. */
  lemma OffsetKept(st: State, p: Packet)
    requires Proper(st) && Accepts(st, p) && st.seen
    ensures Offset(Next(st, p)) == Offset(st) <==> Continues(st, p)
  {
    OffsetOfAccepted(st, p);
    var shift := Gap(st, p) + st.lastSamples - Delta(st, p);
    var before: int := st.timestamp - st.lastSamples - st.lastTimestamp;
    var source: int := p.timestamp;
    ModAdd(st.timestamp + Gap(st, p), 0 - source, U32);
    DifferByShift(st, p, shift);
    SameModulo(before, shift);
  }

  /** The new offset is the old one plus the shift. */
  lemma DifferByShift(st: State, p: Packet, shift: int)
    requires shift == Gap(st, p) + st.lastSamples - Delta(st, p)
    ensures (st.timestamp + Gap(st, p) - p.timestamp) % U32 ==
      (st.timestamp - st.lastSamples - st.lastTimestamp + shift) % U32
  {
    var d := p.timestamp - st.lastTimestamp;
    var q := d / U32;
    assert d == q * U32 + Delta(st, p);
    ModShift(st.timestamp + Gap(st, p) - p.timestamp, q, U32);
    assert st.timestamp + Gap(st, p) - p.timestamp + q * U32 ==
      st.timestamp - st.lastSamples - st.lastTimestamp + shift;
  }

  lemma SameModulo(a: int, shift: int)
    requires -U32 < shift < U32
    ensures (a + shift) % U32 == a % U32 <==> shift == 0
  {
  }

  /** Every packet of the stream that is accepted continues it. */
  predicate Smooth(st: State, ps: seq<Packet>)
    requires Proper(st)
    decreases |ps|
  {
    ps == [] || ((st.seen && Accepts(st, ps[0]) ==> Continues(st, ps[0])) && Smooth(Next(st, ps[0]), ps[1..]))
  }

  /** From the first accepted packet on the offset is always the same. */
  ghost predicate OffsetNeverChanges(st: State, ps: seq<Packet>)
    requires Proper(st)
  {
    forall j, k :: 0 <= j <= k <= |ps| && After(st, ps[..j]).seen ==>
      Offset(After(st, ps[..k])) == Offset(After(st, ps[..j]))
  }

  ghost predicate OffsetStays(st: State, ps: seq<Packet>)
    requires Proper(st)
  {
    forall k :: 0 <= k <= |ps| ==> Offset(After(st, ps[..k])) == Offset(st)
  }

  lemma {:induction false} SeenForGood(st: State, ps: seq<Packet>)
    requires Proper(st) && st.seen
    ensures After(st, ps).seen
    decreases |ps|
  {
    if ps != [] {
      AdvancedKeeps(st, Payloads(st, ps[0]));
      SeenForGood(Next(st, ps[0]), ps[1..]);
    }
  }

  lemma {:induction false} SeenOffset(st: State, ps: seq<Packet>)
    requires Proper(st) && st.seen
    ensures Smooth(st, ps) <==> OffsetStays(st, ps)
    decreases |ps|
  {
    if ps == [] {
      assert forall k :: 0 <= k <= |ps| ==> ps[..k] == [];
    } else {
      var next, rest := Next(st, ps[0]), ps[1..];
      AfterOne(st, ps);
      SeenOffset(next, rest);
      if Accepts(st, ps[0]) {
        OffsetKept(st, ps[0]);
      }
      assert After(st, ps[..0]) == st && After(st, ps[..1]) == next;
      if Smooth(st, ps) {
        forall k | 0 <= k <= |ps| ensures Offset(After(st, ps[..k])) == Offset(st) {
          if k > 0 { assert After(st, ps[..k]) == After(next, rest[..k - 1]); }
        }
      } else if Offset(next) == Offset(st) {
        var k :| 0 <= k <= |rest| && Offset(After(next, rest[..k])) != Offset(next);
        assert After(st, ps[..k + 1]) == After(next, rest[..k]);
      }
    }
  }

  lemma AfterOne(st: State, ps: seq<Packet>)
    requires Proper(st) && ps != []
    ensures forall k :: 0 < k <= |ps| ==> After(st, ps[..k]) == After(Next(st, ps[0]), ps[1..][..k - 1])
  {
    forall k | 0 < k <= |ps| ensures After(st, ps[..k]) == After(Next(st, ps[0]), ps[1..][..k - 1]) {
      assert ps[..k][0] == ps[0] && ps[..k][1..] == ps[1..][..k - 1];
    }
  }

  /**
   From the first accepted packet on, the offset stays the same through a
   stream exactly when the stream is smooth.
   */
  lemma {:induction false} StreamOffset(st: State, ps: seq<Packet>)
    requires Proper(st)
    ensures Smooth(st, ps) <==> OffsetNeverChanges(st, ps)
    decreases |ps|
  {
    if st.seen {
      SeenOffset(st, ps);
      assert After(st, ps[..0]) == st;
    } else if ps == [] {
      assert forall k :: 0 <= k <= |ps| ==> ps[..k] == [];
    } else {
      var next, rest := Next(st, ps[0]), ps[1..];
      StreamOffset(next, rest);
      AfterOne(st, ps);
      if OffsetNeverChanges(st, ps) {
        forall j, k | 0 <= j <= k <= |rest| && After(next, rest[..j]).seen
          ensures Offset(After(next, rest[..k])) == Offset(After(next, rest[..j]))
        {
          assert After(st, ps[..j + 1]) == After(next, rest[..j]) && After(st, ps[..k + 1]) == After(next, rest[..k]);
        }
      }
    }
  }

  /** An overlapping packet and one after a long gap do move the offset. */
  lemma OffsetMoves() returns (first: Packet, overlapping: Packet, late: Packet)
    ensures var st := State(0, 0, 0, false, 0, 0, 0);
      && Accepts(st, first) && Accepts(Next(st, first), overlapping) && Accepts(Next(st, first), late)
      && !OffsetNeverChanges(st, [first, overlapping]) && !OffsetNeverChanges(st, [first, late])
  {
    var st := State(0, 0, 0, false, 0, 0, 0);
    first := Packet(PCMU_PAYLOAD_TYPE, 0, 0, 0, [SILENCE]);
    overlapping := first.(sequence := 1);
    late := overlapping.(timestamp := MAX_SILENCE_GAP + 2);
    AdvancedKeeps(st, Payloads(st, first));
    forall x | x in {overlapping, late} ensures !Smooth(st, [first, x]) {
      assert [first, x][1..] == [x];
    }
    StreamOffset(st, [first, overlapping]);
    StreamOffset(st, [first, late]);
  }
}
