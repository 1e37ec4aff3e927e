/**
 The scan of a smart card's answer to reset (section 8.2 of ISO/IEC 7816-3) for
 the global interface byte in which ETSI TS 102 221 announces eUICC support.
 */
module AnswerToReset {
  import opened Options

  type byte = x: int | 0 <= x < 256

  type nibble = x: int | 0 <= x < 16

  /** The interface bytes that one indicator announces. */
  datatype Head = Head(ta: Option<byte>, tb: Option<byte>, tc: Option<byte>)

  /** Interface byte groups: each after the first is announced, with a protocol, by the one before. */
  datatype Groups = Last(head: Head) | More(head: Head, protocol: nibble, rest: Groups)

  datatype Answer = Answer(convention: byte, groups: Groups, historical: seq<byte>, check: Option<byte>)

  // ----- what an answer to reset is -----

  function Present(x: Option<byte>): seq<byte> {
    if x.Some? then [x.value] else []
  }

  function HeadBytes(h: Head): seq<byte> {
    Present(h.ta) + Present(h.tb) + Present(h.tc)
  }

  /** The four bits of a high nibble: which interface bytes follow. */
  datatype Flags = Flags(ta: bool, tb: bool, tc: bool, td: bool)

  function Joined(high: Flags, low: nibble): byte {
    (if high.ta then 16 else 0) + (if high.tb then 32 else 0) + (if high.tc then 64 else 0) +
      (if high.td then 128 else 0) + low
  }

  function High(b: byte): Flags {
    Flags(b / 16 % 2 == 1, b / 32 % 2 == 1, b / 64 % 2 == 1, b / 128 == 1)
  }

  function Low(b: byte): nibble {
    b % 16
  }

  /** The high nibble that announces a group. */
  function Indicator(g: Groups): Flags {
    Flags(g.head.ta.Some?, g.head.tb.Some?, g.head.tc.Some?, g.More?)
  }

  function GroupBytes(g: Groups): seq<byte> {
    HeadBytes(g.head) + if g.More? then [Joined(Indicator(g.rest), g.protocol)] + GroupBytes(g.rest) else []
  }

  predicate NamesOtherThanZero(g: Groups) {
    g.More? && (g.protocol != 0 || NamesOtherThanZero(g.rest))
  }

  /** The TB bytes of the T=15 groups after the second, in order; g is group `number`. */
  function GlobalTBs(g: Groups, number: nat, protocol: nibble): seq<byte> {
    (if protocol == 15 && number > 2 then Present(g.head.tb) else [])
    + if g.More? then GlobalTBs(g.rest, number + 1, g.protocol) else []
  }

  /** Bitwise exclusive or. */
  function XorBytes(a: byte, b: byte): byte {
    ((a as bv8) ^ (b as bv8)) as int
  }

  function Xor(s: seq<byte>): byte {
    if s == [] then 0 else XorBytes(Xor(s[..|s| - 1]), s[|s| - 1])
  }

  function Encoded(a: Answer): seq<byte>
    requires |a.historical| < 16
  {
    [a.convention, Joined(Indicator(a.groups), |a.historical|)] + GroupBytes(a.groups) + a.historical + Present(a.check)
  }

  /** A check byte is there exactly if some protocol is not 0, and closes the xor of all after the first byte. */
  ghost predicate WellFormed(a: Answer) {
    && (a.convention == 0x3B || a.convention == 0x3F)
    && |a.historical| < 16
    && (a.check.Some? <==> NamesOtherThanZero(a.groups))
    && (a.check.Some? ==> Xor(Encoded(a)[1..]) == 0)
  }

  ghost predicate Encodes(atr: seq<byte>, a: Answer) {
    WellFormed(a) && Encoded(a) == atr
  }

  // ----- reading groups back -----

  function Taken(s: seq<byte>, wanted: bool, i: nat): Option<(Option<byte>, nat)> {
    if !wanted then Some((None, i)) else if i >= |s| then None else Some((Some(s[i]), i + 1))
  }

  function ParsedHead(s: seq<byte>, y: Flags, i: nat): (r: Option<(Head, nat)>)
    ensures i <= |s| && r.Some? ==> i <= r.value.1 <= |s|
  {
    var ta := Taken(s, y.ta, i);
    if ta.None? then None else
      var tb := Taken(s, y.tb, ta.value.1);
      if tb.None? then None else
        var tc := Taken(s, y.tc, tb.value.1);
        if tc.None? then None else Some((Head(ta.value.0, tb.value.0, tc.value.0), tc.value.1))
  }

  /** The groups announced by y that start at i, and where they end. */
  function Parsed(s: seq<byte>, y: Flags, i: nat): Option<(Groups, nat)>
    requires i <= |s|
    decreases |s| - i
  {
    var h := ParsedHead(s, y, i);
    if h.None? then None else
      var k := h.value.1;
      if !y.td then Some((Last(h.value.0), k))
      else if k >= |s| then None
      else
        var rest := Parsed(s, High(s[k]), k + 1);
        if rest.None? then None else Some((More(h.value.0, Low(s[k]), rest.value.0), rest.value.1))
  }

  lemma Nibbles(high: Flags, low: nibble)
    ensures High(Joined(high, low)) == high && Low(Joined(high, low)) == low
  {
    var a, b := if high.ta then 1 else 0, if high.tb then 1 else 0;
    var c, d := if high.tc then 1 else 0, if high.td then 1 else 0;
    HighNibble(a + 2 * b + 4 * c + 8 * d, low);
    FourBits(a, b, c, d);
  }

  lemma HighNibble(high: nibble, low: nibble)
    ensures var n := 16 * high + low;
      n / 16 == high && n / 32 == high / 2 && n / 64 == high / 4 && n / 128 == high / 8 && n % 16 == low
  {
  }

  lemma FourBits(a: nat, b: nat, c: nat, d: nat)
    requires a < 2 && b < 2 && c < 2 && d < 2
    ensures var q := a + 2 * b + 4 * c + 8 * d;
      q % 2 == a && q / 2 % 2 == b && q / 4 % 2 == c && q / 8 == d
  {
  }

  lemma FromNibbles(b: byte)
    ensures Joined(High(b), Low(b)) == b
  {
  }

  lemma HeadSound(s: seq<byte>, y: Flags, i: nat)
    requires i <= |s| && ParsedHead(s, y, i).Some?
    ensures var (h, k) := ParsedHead(s, y, i).value;
      && i <= k <= |s| && HeadBytes(h) == s[i..k]
      && (h.ta.Some? <==> y.ta) && (h.tb.Some? <==> y.tb) && (h.tc.Some? <==> y.tc)
  {
  }

  lemma HeadComplete(s: seq<byte>, y: Flags, h: Head, i: nat)
    requires i + |HeadBytes(h)| <= |s| && s[i..i + |HeadBytes(h)|] == HeadBytes(h)
    requires (h.ta.Some? <==> y.ta) && (h.tb.Some? <==> y.tb) && (h.tc.Some? <==> y.tc)
    ensures ParsedHead(s, y, i) == Some((h, i + |HeadBytes(h)|))
  {
    var b := HeadBytes(h);
    assert forall t :: 0 <= t < |b| ==> s[i..i + |b|][t] == s[i + t] == b[t];
    var second, third := |Present(h.ta)|, |Present(h.ta)| + |Present(h.tb)|;
    assert h.ta.Some? ==> s[i] == b[0] == h.ta.value;
    assert h.tb.Some? ==> s[i + second] == b[second] == h.tb.value;
    assert h.tc.Some? ==> s[i + third] == b[third] == h.tc.value;
  }

  lemma Cut(s: seq<byte>, i: nat, k: nat, j: nat)
    requires i <= k < j <= |s|
    ensures s[i..j] == s[i..k] + ([s[k]] + s[k + 1..j])
  {
  }

  lemma {:induction false} ParsedSound(s: seq<byte>, y: Flags, i: nat)
    requires i <= |s| && Parsed(s, y, i).Some?
    ensures var (g, j) := Parsed(s, y, i).value;
      i <= j <= |s| && GroupBytes(g) == s[i..j] && Indicator(g) == y
    decreases |s| - i
  {
    var (g, j) := Parsed(s, y, i).value;
    var (h, k) := ParsedHead(s, y, i).value;
    HeadSound(s, y, i);
    ParsedShape(s, y, i, g, j, h, k);
    if g.More? {
      ParsedSound(s, High(s[k]), k + 1);
      MoreSound(s, i, k, j, h, g);
    } else {
      assert HeadBytes(h) + [] == HeadBytes(h);
    }
  }

  lemma ParsedShape(s: seq<byte>, y: Flags, i: nat, g: Groups, j: nat, h: Head, k: nat)
    requires i <= |s| && ParsedHead(s, y, i) == Some((h, k)) && Parsed(s, y, i) == Some((g, j))
    ensures g.head == h && g.More? == y.td && (g.Last? ==> j == k)
    ensures g.More? ==> k < |s| && g.protocol == Low(s[k]) && Parsed(s, High(s[k]), k + 1) == Some((g.rest, j))
  {
  }

  lemma MoreSound(s: seq<byte>, i: nat, k: nat, j: nat, h: Head, g: Groups)
    requires i <= k < j <= |s| && HeadBytes(h) == s[i..k] && g.More? && g.head == h
    requires g.protocol == Low(s[k]) && Indicator(g.rest) == High(s[k]) && GroupBytes(g.rest) == s[k + 1..j]
    ensures GroupBytes(g) == s[i..j]
  {
    FromNibbles(s[k]);
    Cut(s, i, k, j);
  }

  /** bytes stand in s from i on. */
  predicate StandsAt(s: seq<byte>, i: nat, bytes: seq<byte>) {
    i + |bytes| <= |s| && s[i..i + |bytes|] == bytes
  }

  lemma Pieces(s: seq<byte>, i: nat, a: seq<byte>, x: byte, b: seq<byte>)
    requires StandsAt(s, i, a + ([x] + b))
    ensures StandsAt(s, i, a) && i + |a| < |s| && s[i + |a|] == x && StandsAt(s, i + |a| + 1, b)
  {
    var all := a + ([x] + b);
    assert forall t :: 0 <= t < |all| ==> s[i + t] == all[t];
    assert a == all[..|a|] && x == all[|a|] && b == all[|a| + 1..];
  }

  lemma GroupHead(s: seq<byte>, g: Groups, i: nat, head: seq<byte>)
    requires head == HeadBytes(g.head) && StandsAt(s, i, head)
    ensures ParsedHead(s, Indicator(g), i) == Some((g.head, i + |head|))
    ensures Indicator(g).td <==> g.More?
  {
    HeadComplete(s, Indicator(g), g.head, i);
  }

  lemma SplitMore(s: seq<byte>, g: Groups, i: nat, y: Flags, bytes: seq<byte>) returns (k: nat)
    requires g.More? && y == Indicator(g) && bytes == GroupBytes(g) && StandsAt(s, i, bytes)
    ensures i <= k < |s| && k + 1 + |GroupBytes(g.rest)| == i + |bytes|
    ensures ParsedHead(s, y, i) == Some((g.head, k)) && y.td
    ensures High(s[k]) == Indicator(g.rest) && Low(s[k]) == g.protocol
    ensures StandsAt(s, k + 1, GroupBytes(g.rest))
  {
    var head, x := HeadBytes(g.head), Joined(Indicator(g.rest), g.protocol);
    k := i + |head|;
    assert bytes == head + ([x] + GroupBytes(g.rest));
    Pieces(s, i, head, x, GroupBytes(g.rest));
    Nibbles(Indicator(g.rest), g.protocol);
    GroupHead(s, g, i, head);
  }

  /** s, read from i with flags y, spells g up to j. */
  predicate Spells(s: seq<byte>, i: nat, y: Flags, g: Groups, j: nat)
    decreases g
  {
    var head := ParsedHead(s, y, i);
    && i <= |s| && head.Some? && head.value.0 == g.head && y.td == g.More?
    && var k := head.value.1;
       if g.Last? then j == k
       else k < |s| && Low(s[k]) == g.protocol && Spells(s, k + 1, High(s[k]), g.rest, j)
  }

  lemma SpellsMore(s: seq<byte>, i: nat, y: Flags, g: Groups, k: nat, j: nat)
    requires g.More? && i <= k < |s| && ParsedHead(s, y, i) == Some((g.head, k)) && y.td && Low(s[k]) == g.protocol
    requires Spells(s, k + 1, High(s[k]), g.rest, j)
    ensures Spells(s, i, y, g, j)
  {
  }

  lemma {:induction false} BytesSpell(s: seq<byte>, g: Groups, i: nat, y: Flags, j: nat)
    requires y == Indicator(g) && j == i + |GroupBytes(g)| && StandsAt(s, i, GroupBytes(g))
    ensures Spells(s, i, y, g, j)
    decreases g
  {
    if g.More? {
      var k := SplitMore(s, g, i, y, GroupBytes(g));
      BytesSpell(s, g.rest, k + 1, High(s[k]), j);
      SpellsMore(s, i, y, g, k, j);
    } else {
      var head := HeadBytes(g.head);
      assert GroupBytes(g) == head;
      GroupHead(s, g, i, head);
    }
  }

  lemma {:induction false} SpelledIsParsed(s: seq<byte>, i: nat, y: Flags, g: Groups, j: nat)
    requires Spells(s, i, y, g, j) && i <= |s|
    ensures Parsed(s, y, i) == Some((g, j))
    decreases g
  {
    if g.More? {
      var k := ParsedHead(s, y, i).value.1;
      SpelledIsParsed(s, k + 1, High(s[k]), g.rest, j);
    }
  }

  lemma ParsedComplete(s: seq<byte>, g: Groups, i: nat, y: Flags, j: nat)
    requires y == Indicator(g) && j == i + |GroupBytes(g)| && StandsAt(s, i, GroupBytes(g))
    ensures Parsed(s, y, i) == Some((g, j))
  {
    BytesSpell(s, g, i, y, j);
    SpelledIsParsed(s, i, y, g, j);
  }

  // ----- the scan -----

  method XorAll(s: seq<byte>) returns (x: byte)
    ensures x == Xor(s)
  {
    x := 0;
    for i := 0 to |s|
      invariant x == Xor(s[..i])
    {
      assert s[..i + 1][..i] == s[..i];
      x := XorBytes(x, s[i]);
    }
    assert s[..|s|] == s;
  }

  /** What is left to check once the groups are known. */
  ghost predicate Accepts(atr: seq<byte>, g: Groups, end: nat)
    requires |atr| >= 2
  {
    var stop := end + Low(atr[1]);
    if NamesOtherThanZero(g) then stop + 1 == |atr| && Xor(atr[1..]) == 0 else stop == |atr|
  }

  lemma Reassembled(s: seq<byte>, i: nat, j: nat)
    requires 2 <= i <= j <= |s|
    ensures [s[0], s[1]] + s[2..i] + s[i..j] + s[j..] == s
  {
  }

  lemma EncodedAs(a: Answer, atr: seq<byte>, end: nat, stop: nat)
    requires 2 <= end <= stop <= |atr| && |a.historical| < 16
    requires a.convention == atr[0] && Joined(Indicator(a.groups), |a.historical|) == atr[1]
    requires GroupBytes(a.groups) == atr[2..end] && a.historical == atr[end..stop] && Present(a.check) == atr[stop..]
    ensures Encoded(a) == atr
  {
    Reassembled(atr, end, stop);
  }

  lemma AcceptedIsEncoded(atr: seq<byte>) returns (a: Answer)
    requires |atr| >= 2 && (atr[0] == 0x3B || atr[0] == 0x3F)
    requires Parsed(atr, High(atr[1]), 2).Some?
    requires var (g, end) := Parsed(atr, High(atr[1]), 2).value; Accepts(atr, g, end)
    ensures Encodes(atr, a) && a.groups == Parsed(atr, High(atr[1]), 2).value.0
  {
    ParsedSound(atr, High(atr[1]), 2);
    FromNibbles(atr[1]);
    var (g, end) := Parsed(atr, High(atr[1]), 2).value;
    a := AnswerFor(atr, g, end);
  }

  lemma AnswerFor(atr: seq<byte>, g: Groups, end: nat) returns (a: Answer)
    requires |atr| >= 2 && (atr[0] == 0x3B || atr[0] == 0x3F) && 2 <= end <= |atr|
    requires Joined(Indicator(g), Low(atr[1])) == atr[1] && GroupBytes(g) == atr[2..end] && Accepts(atr, g, end)
    ensures Encodes(atr, a) && a.groups == g
  {
    var stop := end + Low(atr[1]);
    var check := if NamesOtherThanZero(g) then Some(atr[stop]) else None;
    a := Answer(atr[0], g, atr[end..stop], check);
    assert Present(check) == atr[stop..];
    EncodedAs(a, atr, end, stop);
  }

  lemma EncodedParts(atr: seq<byte>, a: Answer, b: seq<byte>)
    requires |a.historical| < 16 && Encoded(a) == atr && b == GroupBytes(a.groups)
    ensures |atr| == 2 + |b| + |a.historical| + |Present(a.check)|
    ensures atr[0] == a.convention && atr[1] == Joined(Indicator(a.groups), |a.historical|)
    ensures StandsAt(atr, 2, b)
  {
    assert atr[2..2 + |b|] == b;
  }

  lemma EncodedIsAccepted(atr: seq<byte>, a: Answer)
    requires Encodes(atr, a)
    ensures |atr| >= 2 && atr[0] == a.convention
    ensures Parsed(atr, High(atr[1]), 2).Some?
    ensures var (g, end) := Parsed(atr, High(atr[1]), 2).value; g == a.groups && Accepts(atr, g, end)
  {
    EncodedParts(atr, a, GroupBytes(a.groups));
    Nibbles(Indicator(a.groups), |a.historical|);
    ParsedComplete(atr, a.groups, 2, High(atr[1]), 2 + |GroupBytes(a.groups)|);
  }

  /** No two answers to reset have the same bytes. */
  lemma EncodingIsUnique(a: Answer, b: Answer)
    requires WellFormed(a) && WellFormed(b) && Encoded(a) == Encoded(b)
    ensures a == b
  {
    var atr := Encoded(a);
    EncodedIsAccepted(atr, a);
    EncodedIsAccepted(atr, b);
    var n := 2 + |GroupBytes(a.groups)|;
    assert a.historical == atr[n..n + |a.historical|] == b.historical;
    assert a.check.Some? ==> atr[|atr| - 1] == a.check.value;
    assert b.check.Some? ==> atr[|atr| - 1] == b.check.value;
  }

  /** The groups that a well-formed answer with these bytes must have. */
  lemma OnlyParsedGroups(atr: seq<byte>)
    ensures forall a :: Encodes(atr, a) ==>
      && |atr| >= 2 && (atr[0] == 0x3B || atr[0] == 0x3F)
      && Parsed(atr, High(atr[1]), 2).Some?
      && a.groups == Parsed(atr, High(atr[1]), 2).value.0
      && Accepts(atr, a.groups, Parsed(atr, High(atr[1]), 2).value.1)
  {
    forall a | Encodes(atr, a)
      ensures |atr| >= 2 && (atr[0] == 0x3B || atr[0] == 0x3F)
      ensures Parsed(atr, High(atr[1]), 2).Some?
      ensures a.groups == Parsed(atr, High(atr[1]), 2).value.0
      ensures Accepts(atr, a.groups, Parsed(atr, High(atr[1]), 2).value.1)
    {
      EncodedIsAccepted(atr, a);
    }
  }

  /** What is still to be read from index on, after tbs were found, makes up the whole. */
  ghost predicate Leads(atr: seq<byte>, whole: Option<(Groups, nat)>, y: Flags, index: nat, group: nat,
                        protocol: nibble, tbs: seq<byte>, named: bool)
    requires index <= |atr|
  {
    var rest := Parsed(atr, y, index);
    if whole.None? then rest.None?
    else
      && rest.Some? && whole.value.1 == rest.value.1
      && GlobalTBs(whole.value.0, 1, 0) == tbs + GlobalTBs(rest.value.0, group, protocol)
      && (NamesOtherThanZero(whole.value.0) <==> named || NamesOtherThanZero(rest.value.0))
  }

  /** The TB of a group that counts. */
  function Global(h: Head, group: nat, protocol: nibble): Option<byte> {
    if protocol == 15 && group > 2 then h.tb else None
  }

  lemma LeadsOn(atr: seq<byte>, whole: Option<(Groups, nat)>, y: Flags, index: nat, group: nat,
                protocol: nibble, tbs: seq<byte>, named: bool, h: Head, k: nat,
                nextY: Flags, nextProtocol: nibble, nextTBs: seq<byte>, nextNamed: bool)
    requires index <= k < |atr| && Leads(atr, whole, y, index, group, protocol, tbs, named)
    requires ParsedHead(atr, y, index) == Some((h, k)) && y.td
    requires nextY == High(atr[k]) && nextProtocol == Low(atr[k]) && nextNamed == (named || nextProtocol != 0)
    requires nextTBs == tbs + Present(Global(h, group, protocol))
    ensures Leads(atr, whole, nextY, k + 1, group + 1, nextProtocol, nextTBs, nextNamed)
  {
    ParsedOn(atr, y, index, h, k);
    if whole.Some? {
      var g := Parsed(atr, nextY, k + 1).value.0;
      MoreTBs(h, nextProtocol, g, group, protocol);
      Regroup(tbs, Present(Global(h, group, protocol)), GlobalTBs(g, group + 1, nextProtocol));
    }
  }

  lemma ParsedOn(atr: seq<byte>, y: Flags, index: nat, h: Head, k: nat)
    requires index <= k < |atr| && ParsedHead(atr, y, index) == Some((h, k)) && y.td
    ensures var rest := Parsed(atr, High(atr[k]), k + 1);
      Parsed(atr, y, index) ==
        if rest.None? then None else Some((More(h, Low(atr[k]), rest.value.0), rest.value.1))
  {
  }

  lemma MoreTBs(h: Head, next: nibble, g: Groups, group: nat, protocol: nibble)
    ensures GlobalTBs(More(h, next, g), group, protocol) ==
            Present(Global(h, group, protocol)) + GlobalTBs(g, group + 1, next)
    ensures NamesOtherThanZero(More(h, next, g)) <==> next != 0 || NamesOtherThanZero(g)
  {
  }

  lemma Regroup(a: seq<byte>, b: seq<byte>, c: seq<byte>)
    ensures a + (b + c) == (a + b) + c
  {
  }

  /** What the scan of the groups must come to. */
  ghost predicate IsSummary(whole: Option<(Groups, nat)>, index: nat, tbs: seq<byte>, named: bool) {
    && whole.Some? && whole.value.1 == index
    && (NamesOtherThanZero(whole.value.0) <==> named)
    && GlobalTBs(whole.value.0, 1, 0) == tbs
  }

  lemma LeadsToEnd(atr: seq<byte>, whole: Option<(Groups, nat)>, y: Flags, index: nat, group: nat,
                   protocol: nibble, tbs: seq<byte>, named: bool, h: Head, k: nat)
    requires index <= |atr| && Leads(atr, whole, y, index, group, protocol, tbs, named)
    requires ParsedHead(atr, y, index) == Some((h, k)) && !y.td
    ensures IsSummary(whole, k, tbs + Present(Global(h, group, protocol)), named)
  {
    var own := Present(Global(h, group, protocol));
    assert own + [] == own;
  }

  lemma LeadsNowhere(atr: seq<byte>, whole: Option<(Groups, nat)>, y: Flags, index: nat, group: nat,
                     protocol: nibble, tbs: seq<byte>, named: bool)
    requires index <= |atr| && Leads(atr, whole, y, index, group, protocol, tbs, named)
    requires var h := ParsedHead(atr, y, index); h.None? || (y.td && h.value.1 >= |atr|)
    ensures whole.None?
  {
  }

  /**
   found exactly if the bytes are a well-formed answer to reset with a TB in a
   T=15 group after the second; tb is then the last such TB.
   */
  ghost predicate IsGlobalTB(atr: seq<byte>, tb: byte, found: bool) {
    && (found <==> exists a :: Encodes(atr, a) && GlobalTBs(a.groups, 1, 0) != [])
    && (found ==> forall a :: Encodes(atr, a) ==>
          var tbs := GlobalTBs(a.groups, 1, 0); tbs != [] && tb == tbs[|tbs| - 1])
    && (!found ==> tb == 0)
  }

  ghost predicate Begins(atr: seq<byte>) {
    |atr| >= 2 && (atr[0] == 0x3B || atr[0] == 0x3F)
  }

  lemma Refused(atr: seq<byte>)
    requires Begins(atr) ==>
      var p := Parsed(atr, High(atr[1]), 2); p.None? || !Accepts(atr, p.value.0, p.value.1)
    ensures IsGlobalTB(atr, 0, false)
  {
    OnlyParsedGroups(atr);
  }

  lemma Accepted(atr: seq<byte>, tb: byte, tbs: seq<byte>)
    requires Begins(atr) && Parsed(atr, High(atr[1]), 2).Some?
    requires var (g, end) := Parsed(atr, High(atr[1]), 2).value; Accepts(atr, g, end) && GlobalTBs(g, 1, 0) == tbs
    requires tb == if tbs == [] then 0 else tbs[|tbs| - 1]
    ensures IsGlobalTB(atr, tb, tbs != [])
  {
    OnlyParsedGroups(atr);
    var a := AcceptedIsEncoded(atr);
    assert Encodes(atr, a);
  }

  /** Goes over one group's TA, TB and TC. */
  method ScanHead(atr: seq<byte>, y: Flags, start: nat) returns (ok: bool, index: nat, tb: Option<byte>)
    ensures var h := ParsedHead(atr, y, start);
      ok == h.Some? && (ok ==> h.value == (Head(h.value.0.ta, tb, h.value.0.tc), index))
  {
    ok, index, tb := false, start, None;
    if y.ta {
      if index >= |atr| { return; }
      index := index + 1;
    }
    if y.tb {
      if index >= |atr| { return; }
      tb := Some(atr[index]);
      index := index + 1;
    }
    if y.tc {
      if index >= |atr| { return; }
      index := index + 1;
    }
    ok := true;
  }

  lemma StartLeads(atr: seq<byte>, y: Flags)
    requires |atr| >= 2
    ensures Leads(atr, Parsed(atr, y, 2), y, 2, 1, 0, [], false)
  {
  }

  /** tb is the last of what was found, if anything was. */
  predicate IsLast(tbs: seq<byte>, tb: byte, found: bool) {
    found == (tbs != []) && tb == if tbs == [] then 0 else tbs[|tbs| - 1]
  }

  lemma LastGrows(tbs: seq<byte>, tb: byte, found: bool, next: Option<byte>)
    requires IsLast(tbs, tb, found)
    ensures IsLast(tbs + Present(next), if next.Some? then next.value else tb, found || next.Some?)
  {
  }

  /** Goes over the groups; not ok exactly if the bytes run out. */
  method ScanGroups(atr: seq<byte>)
    returns (ok: bool, index: nat, tb: byte, found: bool, needsChecksum: bool, ghost tbs: seq<byte>)
    requires Begins(atr)
    ensures ok ==> IsSummary(Parsed(atr, High(atr[1]), 2), index, tbs, needsChecksum)
    ensures ok ==> IsLast(tbs, tb, found)
    ensures !ok ==> Parsed(atr, High(atr[1]), 2).None?
  {
    var y := High(atr[1]);
    ghost var whole := Parsed(atr, y, 2);
    StartLeads(atr, y);
    index := 2;
    var protocol: nibble := 0;
    var group := 1;
    ok, tb, found, needsChecksum, tbs := false, 0, false, false, [];
    while true
      invariant 2 <= index <= |atr| && group >= 1
      invariant Leads(atr, whole, y, index, group, protocol, tbs, needsChecksum)
      invariant !ok && IsLast(tbs, tb, found)
      decreases |atr| - index
    {
      var inside, next, groupTB := ScanHead(atr, y, index);
      if !inside || (y.td && next >= |atr|) {
        LeadsNowhere(atr, whole, y, index, group, protocol, tbs, needsChecksum);
        return;
      }
      ghost var h, before := ParsedHead(atr, y, index).value.0, tbs;
      tbs := tbs + Present(Global(h, group, protocol));
      LastGrows(before, tb, found, Global(h, group, protocol));
      if protocol == 15 && group > 2 && groupTB.Some? {
        tb, found := groupTB.value, true;
      }
      if !y.td {
        LeadsToEnd(atr, whole, y, index, group, protocol, before, needsChecksum, h, next);
        ok, index := true, next;
        return;
      }
      var td := atr[next];
      LeadsOn(atr, whole, y, index, group, protocol, before, needsChecksum, h, next,
              High(td), Low(td), tbs, needsChecksum || Low(td) != 0);
      y, protocol, needsChecksum := High(td), Low(td), needsChecksum || Low(td) != 0;
      index, group := next + 1, group + 1;
    }
  }

  method T15GlobalTB(atr: seq<byte>) returns (tb: byte, found: bool)
    ensures IsGlobalTB(atr, tb, found)
  {
    if |atr| < 2 {
      Refused(atr);
      return 0, false;
    }
    if atr[0] != 0x3B && atr[0] != 0x3F {
      Refused(atr);
      return 0, false;
    }
    var historicalLen := Low(atr[1]);
    ghost var tbs;
    var ok, index, needsChecksum;
    ok, index, tb, found, needsChecksum, tbs := ScanGroups(atr);
    if !ok {
      Refused(atr);
      return 0, false;
    }
    var end := index + historicalLen;
    if needsChecksum {
      if end >= |atr| || end + 1 != |atr| {
        Refused(atr);
        return 0, false;
      }
      var checksum := XorAll(atr[1..]);
      if checksum != 0 {
        Refused(atr);
        return 0, false;
      }
      Accepted(atr, tb, tbs);
      return;
    }
    if end != |atr| {
      Refused(atr);
      return 0, false;
    }
    Accepted(atr, tb, tbs);
  }
}
