/**
 rtnetlink messages: how a default route is written into a request and read out
 of a dump. Numbers are little-endian; every attribute is padded to four bytes.
 */
module Netlink {
  import opened Options
  import opened Routes

  const INET := 2
  const INET6 := 10
  const MAIN_TABLE := 254
  const UNICAST := 1
  const HEADER_SIZE := 12
  const ATTR_SIZE := 4
  const RTA_OIF := 4
  const RTA_GATEWAY := 5
  const RTA_PRIORITY := 6
  const RTA_PREFSRC := 7
  const RTA_MULTIPATH := 9
  const RTA_TABLE := 15
  const RTA_VIA := 18

  type Attrs = map<nat, seq<byte>>

  /** The interfaces of the host, by name and by index. */
  datatype Interfaces = Interfaces(index: map<string, nat>, name: map<nat, string>)

  ghost predicate Consistent(ifs: Interfaces) {
    && (forall n :: n in ifs.index ==> ifs.index[n] in ifs.name && ifs.name[ifs.index[n]] == n)
    && (forall i :: i in ifs.name ==> 0 < i < 0x8000_0000 && ifs.name[i] != "")
  }

  predicate Sized(a: Addr) {
    match a
    case NoAddr => true
    case V4(raw) => |raw| == 4
    case V6(raw) => |raw| == 16
  }

  // ----- numbers -----

  /** The low bytes of n, least significant first. */
  function Bytes(n: nat, size: nat): (b: seq<byte>)
    ensures |b| == size
  {
    if size == 0 then [] else [n % 256] + Bytes(n / 256, size - 1)
  }

  function Number(b: seq<byte>): nat {
    if b == [] then 0 else b[0] + 256 * Number(b[1..])
  }

  function Values(size: nat): (n: nat)
    ensures n > 0
  {
    if size == 0 then 1 else 256 * Values(size - 1)
  }

  /** What was written is read back, as far as it fits. */
  lemma {:induction false} NumberRoundTrip(n: nat, size: nat)
    ensures Number(Bytes(n, size)) < Values(size)
    ensures Number(Bytes(n, size)) == n <==> n < Values(size)
    decreases size
  {
    if size > 0 {
      NumberRoundTrip(n / 256, size - 1);
      assert Bytes(n, size)[1..] == Bytes(n / 256, size - 1);
    }
  }

  /** Numbers stand with their least significant byte first. */
  lemma LeastSignificantFirst(b: seq<byte>)
    ensures |b| == 2 ==> Number(b) == b[0] as int + 0x100 * b[1] as int
    ensures |b| == 4 ==>
      Number(b) == b[0] as int + 0x100 * b[1] as int + 0x1_0000 * b[2] as int + 0x100_0000 * b[3] as int
  {
    if |b| == 2 || |b| == 4 {
      assert Number(b) == b[0] + 256 * Number(b[1..]);
      assert Number(b[1..]) == b[1] + 256 * Number(b[1..][1..]);
      if |b| == 4 {
        var c := b[1..][1..];
        assert Number(c) == c[0] + 256 * Number(c[1..]) && Number(c[1..]) == c[1..][0] + 256 * Number(c[1..][1..]);
      }
    }
  }

  lemma Widths()
    ensures Values(2) == 0x1_0000 && Values(4) == 0x1_0000_0000
  {
    assert Values(1) == 256 * Values(0);
    assert Values(3) == 256 * Values(2);
  }

  lemma {:induction false} NumberBound(b: seq<byte>)
    ensures Number(b) < Values(|b|)
    decreases |b|
  {
    if b != [] { NumberBound(b[1..]); }
  }

  function Read16(s: seq<byte>): (n: nat)
    requires |s| >= 2
    ensures n < 0x1_0000
  {
    NumberBound(s[..2]);
    Widths();
    Number(s[..2])
  }

  function Read32(s: seq<byte>): nat
    requires |s| >= 4
  {
    Number(s[..4])
  }

  // ----- attributes -----

  function Aligned(length: nat): (n: nat)
    ensures length <= n < length + 4 && n % 4 == 0
  {
    (length + 3) / 4 * 4
  }

  function Zeros(n: nat): (z: seq<byte>)
    ensures |z| == n && forall i :: 0 <= i < n ==> z[i] == 0
  {
    seq(n, _ => 0)
  }

  /** Lengths are written in sixteen bits. */
  predicate Fits(value: seq<byte>) {
    ATTR_SIZE + |value| < 0x1_0000
  }

  function Attr(t: nat, value: seq<byte>): (b: seq<byte>)
    requires t < 0x1_0000 && Fits(value)
    ensures |b| == Aligned(ATTR_SIZE + |value|)
  {
    Bytes(ATTR_SIZE + |value|, 2) + Bytes(t, 2) + value + Zeros(Aligned(ATTR_SIZE + |value|) - ATTR_SIZE - |value|)
  }

  /** Length, type, value and zeros up to a multiple of four, where they stand. */
  lemma AttrLayout(t: nat, value: seq<byte>)
    requires t < 0x1_0000 && Fits(value)
    ensures var b := Attr(t, value);
      && |b| % 4 == 0 && |b| < 8 + |value|
      && b[0] as int + 0x100 * b[1] as int == 4 + |value| && b[2] as int + 0x100 * b[3] as int == t
      && b[4..4 + |value|] == value && forall i :: 4 + |value| <= i < |b| ==> b[i] == 0
  {
    var b := Attr(t, value);
    Widths();
    NumberRoundTrip(4 + |value|, 2);
    NumberRoundTrip(t, 2);
    LeastSignificantFirst(Bytes(4 + |value|, 2));
    LeastSignificantFirst(Bytes(t, 2));
    assert b[..2] == Bytes(4 + |value|, 2) && b[2..4] == Bytes(t, 2);
  }

  /** A whole attribute stands at the start. */
  predicate Complete(data: seq<byte>) {
    |data| >= ATTR_SIZE && ATTR_SIZE <= Read16(data) <= |data| && Aligned(Read16(data)) <= |data|
  }

  /** The attributes read from data, later ones replacing earlier ones. */
  function AttrsIn(data: seq<byte>, sofar: Attrs): Attrs
    decreases |data|
  {
    if !Complete(data) then sofar
    else AttrsIn(data[Aligned(Read16(data))..], sofar[Read16(data[2..]) := data[ATTR_SIZE..Read16(data)]])
  }

  lemma Overwritten(front: seq<byte>, zeros: nat, value: seq<byte>)
    requires |value| <= zeros
    ensures var out := front + Zeros(zeros);
      out[..|front|] + value + out[|front| + |value|..] == front + value + Zeros(zeros - |value|)
  {
    var out := front + Zeros(zeros);
    assert out[..|front|] == front && out[|front| + |value|..] == Zeros(zeros - |value|);
  }

  method AppendAttr(msg: seq<byte>, t: nat, value: seq<byte>) returns (out: seq<byte>)
    requires t < 0x1_0000 && Fits(value)
    ensures out == msg + Attr(t, value)
  {
    var length := ATTR_SIZE + |value|;
    var padded := Aligned(length);
    var start := |msg|;
    out := msg + Zeros(padded);
    Overwritten(msg, padded, Bytes(length, 2));
    out := out[..start] + Bytes(length, 2) + out[start + 2..];
    Overwritten(msg + Bytes(length, 2), padded - 2, Bytes(t, 2));
    out := out[..start + 2] + Bytes(t, 2) + out[start + 4..];
    Overwritten(msg + Bytes(length, 2) + Bytes(t, 2), padded - 4, value);
    out := out[..start + ATTR_SIZE] + value + out[start + length..];
    assert out == msg + (Bytes(length, 2) + Bytes(t, 2) + value + Zeros(padded - length));
  }

  method ParseAttrs(bytes: seq<byte>) returns (attrs: Attrs)
    ensures attrs == AttrsIn(bytes, map[])
  {
    attrs := map[];
    var data := bytes;
    while |data| >= ATTR_SIZE
      invariant AttrsIn(bytes, map[]) == AttrsIn(data, attrs)
      decreases |data|
    {
      var length := Read16(data);
      if length < ATTR_SIZE || length > |data| {
        break;
      }
      var aligned := Aligned(length);
      if aligned > |data| {
        break;
      }
      attrs := attrs[Read16(data[2..]) := data[ATTR_SIZE..length]];
      data := data[aligned..];
    }
  }

  lemma AttrRead(t: nat, value: seq<byte>, rest: seq<byte>)
    requires t < 0x1_0000 && Fits(value)
    ensures var data := Attr(t, value) + rest; var length := ATTR_SIZE + |value|;
      && Complete(data) && Read16(data) == length && Read16(data[2..]) == t
      && data[ATTR_SIZE..length] == value && data[Aligned(length)..] == rest
  {
    Widths();
    NumberRoundTrip(t, 2);
    NumberRoundTrip(ATTR_SIZE + |value|, 2);
    var data := Attr(t, value) + rest;
    assert data[..2] == Bytes(ATTR_SIZE + |value|, 2) && data[2..][..2] == Bytes(t, 2);
  }

  datatype Pair = Pair(t: nat, value: seq<byte>)

  type Attribute = p: Pair | p.t < 0x1_0000 && Fits(p.value) witness Pair(0, [])

  function Written(list: seq<Attribute>): seq<byte> {
    if list == [] then [] else
      var last := list[|list| - 1];
      Written(list[..|list| - 1]) + Attr(last.t, last.value)
  }

  function Gathered(list: seq<Attribute>): Attrs {
    if list == [] then map[] else
      var last := list[|list| - 1];
      Gathered(list[..|list| - 1])[last.t := last.value]
  }

  lemma WrittenAppend(list: seq<Attribute>, last: Attribute)
    ensures Written(list + [last]) == Written(list) + Attr(last.t, last.value)
    ensures Gathered(list + [last]) == Gathered(list)[last.t := last.value]
  {
    assert (list + [last])[..|list|] == list;
  }

  lemma Regroup(a: seq<byte>, b: seq<byte>, c: seq<byte>)
    ensures (a + b) + c == a + (b + c)
  {
  }

  lemma ReadOne(p: Attribute, rest: seq<byte>, sofar: Attrs)
    ensures AttrsIn(Attr(p.t, p.value) + rest, sofar) == AttrsIn(rest, sofar[p.t := p.value])
  {
    AttrRead(p.t, p.value, rest);
  }

  lemma {:induction false} ReadOn(list: seq<Attribute>, rest: seq<byte>)
    ensures AttrsIn(Written(list) + rest, map[]) == AttrsIn(rest, Gathered(list))
    decreases |list|
  {
    if list == [] {
      assert Written(list) + rest == rest;
    } else {
      var front, last := list[..|list| - 1], list[|list| - 1];
      var bytes := Attr(last.t, last.value);
      ReadOn(front, bytes + rest);
      Regroup(Written(front), bytes, rest);
      ReadOne(last, rest, Gathered(front));
    }
  }

  /** No whole attribute stands there: too short, or its length too small or too large. */
  ghost predicate HasNoAttr(rest: seq<byte>) {
    |rest| < 4 ||
      var length := Number(rest[..2]);
      length < 4 || (length + 3) / 4 * 4 > |rest|
  }

  /** Any attributes written one after the other are read back, the last of each type, whatever garbage follows. */
  lemma AttrsReadTo(list: seq<Attribute>, rest: seq<byte>)
    requires HasNoAttr(rest)
    ensures AttrsIn(Written(list) + rest, map[]) == Gathered(list)
  {
    ReadOn(list, rest);
  }

  lemma AttrsRoundTrip(list: seq<Attribute>)
    ensures AttrsIn(Written(list), map[]) == Gathered(list)
  {
    AttrsReadTo(list, []);
    assert Written(list) + [] == Written(list);
  }

  // ----- a route as a request -----

  datatype RequestError = BadFamily | NoInterface | GatewayFamily | SourceFamily

  datatype Request = Request(msg: seq<byte>) | Refused(error: RequestError)

  function Raw(a: Addr): (b: seq<byte>)
    requires Sized(a)
    ensures |b| <= 16
  {
    if a.NoAddr? then [] else a.raw
  }

  function FamilyOf(a: Addr): int {
    match a
    case NoAddr => 0
    case V4(_) => INET
    case V6(_) => INET6
  }

  function Header(route: Route): (h: seq<byte>)
    requires route.family == INET || route.family == INET6
    ensures |h| == HEADER_SIZE
  {
    [route.family, 0, 0, 0, MAIN_TABLE, ProtocolOf(route) % 256, route.scope % 256, UNICAST, 0, 0, 0, 0]
  }

  function With(list: seq<Attribute>, wanted: bool, t: nat, value: seq<byte>): seq<Attribute>
    requires wanted ==> t < 0x1_0000 && Fits(value)
  {
    if wanted then list + [Pair(t, value)] else list
  }

  function AttributesOf(route: Route, index: nat): seq<Attribute>
    requires Sized(route.gateway) && Sized(route.source)
  {
    var out := With([], true, RTA_OIF, Bytes(index, 4));
    var metric := With(out, route.metric > 0, RTA_PRIORITY, Bytes(route.metric, 4));
    var gateway := With(metric, route.gateway != NoAddr, RTA_GATEWAY, Raw(route.gateway));
    With(gateway, route.source != NoAddr, RTA_PREFSRC, Raw(route.source))
  }

  lemma WrittenWith(header: seq<byte>, list: seq<Attribute>, wanted: bool, t: nat, value: seq<byte>)
    requires wanted ==> t < 0x1_0000 && Fits(value)
    ensures header + Written(With(list, wanted, t, value)) ==
            header + Written(list) + if wanted then Attr(t, value) else []
  {
    if wanted {
      WrittenAppend(list, Pair(t, value));
      assert header + (Written(list) + Attr(t, value)) == header + Written(list) + Attr(t, value);
    }
  }

  /** Appends the attribute to the list's bytes if it is wanted. */
  method AppendOn(ghost header: seq<byte>, ghost list: seq<Attribute>, msg: seq<byte>, wanted: bool, t: nat,
                  value: seq<byte>)
    returns (out: seq<byte>)
    requires t < 0x1_0000 && Fits(value)
    requires msg == header + Written(list)
    ensures out == header + Written(With(list, wanted, t, value))
  {
    WrittenWith(header, list, wanted, t, value);
    out := msg;
    if wanted {
      out := AppendAttr(msg, t, value);
    }
  }

  predicate CanRequest(ifs: Interfaces, route: Route) {
    && (route.family == INET || route.family == INET6) && route.iface in ifs.index
    && (route.gateway == NoAddr || FamilyOf(route.gateway) == route.family)
    && (route.source == NoAddr || FamilyOf(route.source) == route.family)
  }

  function Message(route: Route, index: nat): seq<byte>
    requires route.family == INET || route.family == INET6
    requires Sized(route.gateway) && Sized(route.source)
  {
    Header(route) + Written(AttributesOf(route, index))
  }

  /** The body of the request that adds or deletes a route. */
  method ChangeDefaultRoute(ifs: Interfaces, route: Route) returns (r: Request)
    requires Sized(route.gateway) && Sized(route.source)
    ensures r.Request? <==> CanRequest(ifs, route)
    ensures r == Refused(BadFamily) <==> route.family != INET && route.family != INET6
    ensures r == Refused(NoInterface) ==> route.iface !in ifs.index
    ensures r == Refused(GatewayFamily) ==> route.gateway != NoAddr && FamilyOf(route.gateway) != route.family
    ensures r == Refused(SourceFamily) ==>
      && route.source != NoAddr && FamilyOf(route.source) != route.family
      && (route.gateway == NoAddr || FamilyOf(route.gateway) == route.family)
    ensures r.Request? ==> r.msg == Message(route, ifs.index[route.iface])
  {
    if route.family != INET && route.family != INET6 {
      return Refused(BadFamily);
    }
    if route.iface !in ifs.index {
      return Refused(NoInterface);
    }
    if route.gateway != NoAddr && FamilyOf(route.gateway) != route.family {
      return Refused(GatewayFamily);
    }
    if route.source != NoAddr && FamilyOf(route.source) != route.family {
      return Refused(SourceFamily);
    }
    var header := Header(route);
    var msg := AppendAttributes(header, route, ifs.index[route.iface]);
    r := Request(msg);
  }

  method AppendAttributes(header: seq<byte>, route: Route, index: nat) returns (msg: seq<byte>)
    requires Sized(route.gateway) && Sized(route.source)
    ensures msg == header + Written(AttributesOf(route, index))
  {
    var oif, priority := Bytes(index, 4), Bytes(route.metric, 4);
    assert header + Written([]) == header;
    msg := AppendOn(header, [], header, true, RTA_OIF, oif);
    ghost var list := With([], true, RTA_OIF, oif);
    msg := AppendOn(header, list, msg, route.metric > 0, RTA_PRIORITY, priority);
    list := With(list, route.metric > 0, RTA_PRIORITY, priority);
    msg := AppendOn(header, list, msg, route.gateway != NoAddr, RTA_GATEWAY, Raw(route.gateway));
    list := With(list, route.gateway != NoAddr, RTA_GATEWAY, Raw(route.gateway));
    msg := AppendOn(header, list, msg, route.source != NoAddr, RTA_PREFSRC, Raw(route.source));
  }

  // ----- routes read from a dump -----

  function Get(attrs: Attrs, t: nat): seq<byte> {
    if t in attrs then attrs[t] else []
  }

  function Uint32(value: seq<byte>): nat {
    if |value| < 4 then 0 else Read32(value)
  }

  function AddrIn(family: int, value: seq<byte>): (a: Addr)
    ensures Sized(a)
  {
    if family == INET then (if |value| < 4 then NoAddr else V4(value[..4]))
    else if family == INET6 then (if |value| < 16 then NoAddr else V6(value[..16]))
    else NoAddr
  }

  function ViaAddr(value: seq<byte>): Addr {
    if |value| < 2 then NoAddr else AddrIn(Read16(value), value[2..])
  }

  function GatewayIn(family: int, attrs: Attrs): Addr {
    var gateway := AddrIn(family, Get(attrs, RTA_GATEWAY));
    if gateway != NoAddr then gateway else ViaAddr(Get(attrs, RTA_VIA))
  }

  /** A message about a unicast default route of the main table. */
  predicate AboutDefaultRoute(data: seq<byte>, attrs: Attrs)
    requires |data| >= HEADER_SIZE
  {
    && (data[0] == INET || data[0] == INET6)
    && data[1] == 0 && data[7] == UNICAST
    && (var table := Uint32(Get(attrs, RTA_TABLE)); if table != 0 then table == MAIN_TABLE else data[4] == MAIN_TABLE)
  }

  function InterfaceName(ifs: Interfaces, index: nat): Option<string> {
    if index == 0 then Some("") else if index in ifs.name then Some(ifs.name[index]) else None
  }

  function RouteFrom(data: seq<byte>, attrs: Attrs, iface: string): Route
    requires |data| >= HEADER_SIZE
  {
    Route(iface, data[0], data[5], data[6], GatewayIn(data[0], attrs), AddrIn(data[0], Get(attrs, RTA_PREFSRC)),
          Uint32(Get(attrs, RTA_PRIORITY)))
  }

  function DefaultRoutesIn(ifs: Interfaces, data: seq<byte>): seq<Route> {
    if |data| < HEADER_SIZE then [] else
      var attrs := AttrsIn(data[HEADER_SIZE..], map[]);
      if !AboutDefaultRoute(data, attrs) then [] else
        var name := InterfaceName(ifs, Uint32(Get(attrs, RTA_OIF)));
        if name.None? then []
        else
          var route := RouteFrom(data, attrs, name.value);
          if Get(attrs, RTA_MULTIPATH) != [] then HopsIn(ifs, route, Get(attrs, RTA_MULTIPATH), [])
          else if route.iface == "" then [] else [route]
  }

  const HOP_SIZE := 8

  predicate CompleteHop(data: seq<byte>) {
    |data| >= HOP_SIZE && HOP_SIZE <= Read16(data) <= |data| && Aligned(Read16(data)) <= |data|
  }

  /** The route through one next hop, if its interface is known. */
  function HopRoute(ifs: Interfaces, route: Route, index: nat, attrs: Attrs): Option<Route> {
    var name := InterfaceName(ifs, index);
    if name.None? then None else
      var gateway := GatewayIn(route.family, attrs);
      var hop := route.(iface := if index == 0 then route.iface else name.value,
                        gateway := if gateway != NoAddr then gateway else route.gateway);
      if hop.iface == "" then None else Some(hop)
  }

  function HopsIn(ifs: Interfaces, route: Route, data: seq<byte>, sofar: seq<Route>): seq<Route>
    decreases |data|
  {
    if !CompleteHop(data) then sofar else
      var hop := HopRoute(ifs, route, Read32(data[4..]), AttrsIn(data[HOP_SIZE..Read16(data)], map[]));
      HopsIn(ifs, route, data[Aligned(Read16(data))..], if hop.Some? then sofar + [hop.value] else sofar)
  }

  // ----- any message -----

  function AttrsOf(data: seq<byte>): Attrs
    requires |data| >= 12
  {
    AttrsIn(data[12..], map[])
  }

  /** The number in the attribute, 0 if it is missing or too short. */
  function NumberIn(attrs: Attrs, t: nat): nat {
    if t in attrs && |attrs[t]| >= 4 then Number(attrs[t][..4]) else 0
  }

  /** The table attribute says 254, or, without one that says anything, the header does. */
  predicate InMainTable(data: seq<byte>)
    requires |data| >= 12
  {
    var table := NumberIn(AttrsOf(data), 15);
    table == 254 || (table == 0 && data[4] == 254)
  }

  /** Destination length 0, unicast, one of the two families, main table. */
  predicate IsDefaultMessage(data: seq<byte>) {
    |data| >= 12 && data[1] == 0 && data[7] == 1 && data[0] in {2, 10} && InMainTable(data)
  }

  lemma AboutDefaultMessages(data: seq<byte>)
    ensures IsDefaultMessage(data) <==>
      |data| >= HEADER_SIZE && AboutDefaultRoute(data, AttrsIn(data[HEADER_SIZE..], map[]))
  {
    if |data| >= 12 {
      var attrs := AttrsOf(data);
      assert NumberIn(attrs, 15) == Uint32(Get(attrs, RTA_TABLE));
    }
  }

  /** No other message gives a route: one field that differs is enough. */
  lemma OtherMessagesGiveNothing(ifs: Interfaces, data: seq<byte>)
    ensures |data| < 12 ==> DefaultRoutesIn(ifs, data) == []
    ensures |data| >= 12 && data[1] != 0 ==> DefaultRoutesIn(ifs, data) == []
    ensures |data| >= 12 && data[7] != 1 ==> DefaultRoutesIn(ifs, data) == []
    ensures |data| >= 12 && data[0] != 2 && data[0] != 10 ==> DefaultRoutesIn(ifs, data) == []
    ensures |data| >= 12 && !InMainTable(data) ==> DefaultRoutesIn(ifs, data) == []
  {
    AboutDefaultMessages(data);
  }

  /** The interface that the index stands for: none for 0, and no message for an unknown one. */
  ghost predicate IsInterface(ifs: Interfaces, index: nat, iface: string) {
    if index == 0 then iface == "" else index in ifs.name && ifs.name[index] == iface
  }

  /** r says field by field what the message says. */
  ghost predicate IsRouteOf(r: Route, data: seq<byte>, iface: string)
    requires |data| >= 12
  {
    var attrs := AttrsOf(data);
    && r.iface == iface && r.family == data[0] && r.protocol == data[5] && r.scope == data[6]
    && r.metric == NumberIn(attrs, 6)
    && IsAddrIn(r.source, data[0], attrs, 7)
    && IsGatewayIn(r.gateway, data[0], attrs)
  }

  /** The attribute holds an address of the family, and this is it; or it holds none. */
  ghost predicate IsAddrIn(a: Addr, family: int, attrs: Attrs, t: nat) {
    if t in attrs && family == 2 && |attrs[t]| >= 4 then a == V4(attrs[t][..4])
    else if t in attrs && family == 10 && |attrs[t]| >= 16 then a == V6(attrs[t][..16])
    else a == NoAddr
  }

  /** The gateway attribute holds an address of the route's family, or the via attribute one of the family it names. */
  ghost predicate IsGatewayIn(a: Addr, family: int, attrs: Attrs) {
    if IsAddrIn(NoAddr, family, attrs, 5) then
      if 18 in attrs && |attrs[18]| >= 2
      then IsAddrIn(a, Number(attrs[18][..2]), map[18 := attrs[18][2..]], 18) else a == NoAddr
    else IsAddrIn(a, family, attrs, 5)
  }

  lemma RouteOfMessage(data: seq<byte>, iface: string)
    requires |data| >= HEADER_SIZE
    ensures IsRouteOf(RouteFrom(data, AttrsOf(data), iface), data, iface)
  {
    var attrs := AttrsOf(data);
    assert NumberIn(attrs, 6) == Uint32(Get(attrs, RTA_PRIORITY));
    assert IsAddrIn(AddrIn(data[0], Get(attrs, RTA_PREFSRC)), data[0], attrs, 7);
    assert IsAddrIn(AddrIn(data[0], Get(attrs, RTA_GATEWAY)), data[0], attrs, 5);
    GatewayOf(data[0], attrs);
  }

  lemma GatewayOf(family: int, attrs: Attrs)
    ensures IsGatewayIn(GatewayIn(family, attrs), family, attrs)
  {
    var gateway := AddrIn(family, Get(attrs, RTA_GATEWAY));
    assert IsAddrIn(gateway, family, attrs, 5);
    if gateway == NoAddr && 18 in attrs && |attrs[18]| >= 2 {
      var via := attrs[18];
      assert Get(attrs, RTA_VIA) == via && Read16(via) == Number(via[..2]);
      assert IsAddrIn(AddrIn(Read16(via), via[2..]), Read16(via), map[18 := via[2..]], 18);
    }
  }

  /** What a message about a default route gives: a route, the routes of its next hops, or none without an interface. */
  lemma DefaultMessageRead(ifs: Interfaces, data: seq<byte>)
    requires IsDefaultMessage(data)
    ensures var routes := DefaultRoutesIn(ifs, data);
      var attrs, index := AttrsOf(data), NumberIn(AttrsOf(data), 4);
      if index != 0 && index !in ifs.name then routes == [] else
        exists r, iface ::
          && IsInterface(ifs, index, iface) && IsRouteOf(r, data, iface)
          && routes == if 9 in attrs && attrs[9] != [] then HopsIn(ifs, r, attrs[9], [])
                       else if iface == "" then [] else [r]
  {
    var attrs, index := AttrsOf(data), NumberIn(AttrsOf(data), 4);
    AboutDefaultMessages(data);
    assert index == Uint32(Get(attrs, RTA_OIF));
    if index == 0 || index in ifs.name {
      var iface := InterfaceName(ifs, index).value;
      RouteOfMessage(data, iface);
      assert IsInterface(ifs, index, iface) && IsRouteOf(RouteFrom(data, attrs, iface), data, iface);
    }
  }

  // ----- the methods -----

  method ParseMultipath(ifs: Interfaces, route: Route, bytes: seq<byte>) returns (routes: seq<Route>)
    ensures routes == HopsIn(ifs, route, bytes, [])
  {
    routes := [];
    var data := bytes;
    while |data| >= HOP_SIZE
      invariant HopsIn(ifs, route, bytes, []) == HopsIn(ifs, route, data, routes)
      decreases |data|
    {
      var length := Read16(data);
      if length < HOP_SIZE || length > |data| {
        break;
      }
      var aligned := Aligned(length);
      if aligned > |data| {
        break;
      }
      var hop := route;
      var index := Read32(data[4..]);
      if index != 0 {
        if index !in ifs.name {
          data := data[aligned..];
          continue;
        }
        hop := hop.(iface := ifs.name[index]);
      }
      var attrs := ParseAttrs(data[HOP_SIZE..length]);
      var gateway := GatewayIn(route.family, attrs);
      if gateway != NoAddr {
        hop := hop.(gateway := gateway);
      }
      if hop.iface != "" {
        routes := routes + [hop];
      }
      data := data[aligned..];
    }
  }

  method ParseDefaultRoutes(ifs: Interfaces, data: seq<byte>) returns (routes: seq<Route>)
    ensures routes == DefaultRoutesIn(ifs, data)
    ensures routes != [] ==> IsDefaultMessage(data)
  {
    OtherMessagesGiveNothing(ifs, data);
    if |data| < HEADER_SIZE {
      return [];
    }
    var family := data[0];
    if family != INET && family != INET6 {
      return [];
    }
    if data[1] != 0 || data[7] != UNICAST {
      return [];
    }
    var attrs := ParseAttrs(data[HEADER_SIZE..]);
    var table := Uint32(Get(attrs, RTA_TABLE));
    if table != 0 {
      if table != MAIN_TABLE {
        return [];
      }
    } else if data[4] != MAIN_TABLE {
      return [];
    }
    var index := Uint32(Get(attrs, RTA_OIF));
    var gateway := GatewayIn(family, attrs);
    var source := AddrIn(family, Get(attrs, RTA_PREFSRC));
    var metric := Uint32(Get(attrs, RTA_PRIORITY));
    var route := Route("", family, data[5], data[6], gateway, source, metric);
    if index != 0 {
      if index !in ifs.name {
        return [];
      }
      route := route.(iface := ifs.name[index]);
    }
    if |Get(attrs, RTA_MULTIPATH)| > 0 {
      routes := ParseMultipath(ifs, route, Get(attrs, RTA_MULTIPATH));
      return;
    }
    if route.iface == "" {
      return [];
    }
    routes := [route];
  }

  // ----- round trip -----

  lemma GatheredWith(list: seq<Attribute>, next: seq<Attribute>, wanted: bool, t: nat, value: seq<byte>, u: nat)
    requires wanted ==> t < 0x1_0000 && Fits(value)
    requires next == With(list, wanted, t, value)
    ensures Get(Gathered(next), u) == if wanted && u == t then value else Get(Gathered(list), u)
  {
    if wanted { WrittenAppend(list, Pair(t, value)); }
  }

  lemma OifRead(oif: seq<Attribute>, number: seq<byte>, u: nat)
    requires |number| == 4 && oif == With([], true, RTA_OIF, number)
    ensures Get(Gathered(oif), u) == if u == RTA_OIF then number else []
  {
    GatheredWith([], oif, true, RTA_OIF, number, u);
  }

  lemma ListsRead(route: Route, oif: seq<Attribute>, metric: seq<Attribute>, gateway: seq<Attribute>,
                  all: seq<Attribute>, index: seq<byte>, priority: seq<byte>, u: nat)
    requires Sized(route.gateway) && Sized(route.source) && |index| == 4 && |priority| == 4
    requires oif == With([], true, RTA_OIF, index)
    requires metric == With(oif, route.metric > 0, RTA_PRIORITY, priority)
    requires gateway == With(metric, route.gateway != NoAddr, RTA_GATEWAY, Raw(route.gateway))
    requires all == With(gateway, route.source != NoAddr, RTA_PREFSRC, Raw(route.source))
    ensures Get(Gathered(all), u) ==
      if u == RTA_OIF then index
      else if u == RTA_PRIORITY && route.metric > 0 then priority
      else if u == RTA_GATEWAY then Raw(route.gateway)
      else if u == RTA_PREFSRC then Raw(route.source)
      else []
  {
    OifRead(oif, index, u);
    GatheredWith(oif, metric, route.metric > 0, RTA_PRIORITY, priority, u);
    GatheredWith(metric, gateway, route.gateway != NoAddr, RTA_GATEWAY, Raw(route.gateway), u);
    GatheredWith(gateway, all, route.source != NoAddr, RTA_PREFSRC, Raw(route.source), u);
  }

  /** Each attribute of the request, as the reader finds it. */
  lemma AttributesRead(route: Route, index: nat, u: nat)
    requires Sized(route.gateway) && Sized(route.source)
    ensures Get(Gathered(AttributesOf(route, index)), u) ==
      if u == RTA_OIF then Bytes(index, 4)
      else if u == RTA_PRIORITY && route.metric > 0 then Bytes(route.metric, 4)
      else if u == RTA_GATEWAY then Raw(route.gateway)
      else if u == RTA_PREFSRC then Raw(route.source)
      else []
  {
    var i, p := Bytes(index, 4), Bytes(route.metric, 4);
    var oif := With([], true, RTA_OIF, i);
    var metric := With(oif, route.metric > 0, RTA_PRIORITY, p);
    var gateway := With(metric, route.gateway != NoAddr, RTA_GATEWAY, Raw(route.gateway));
    ListsRead(route, oif, metric, gateway, AttributesOf(route, index), i, p, u);
  }

  lemma MessageParts(route: Route, index: nat)
    requires route.family == INET || route.family == INET6
    requires Sized(route.gateway) && Sized(route.source)
    ensures var data := Message(route, index);
      && |data| >= HEADER_SIZE && data[..HEADER_SIZE] == Header(route)
      && AttrsIn(data[HEADER_SIZE..], map[]) == Gathered(AttributesOf(route, index))
  {
    AttrsRoundTrip(AttributesOf(route, index));
    assert Message(route, index)[HEADER_SIZE..] == Written(AttributesOf(route, index));
  }

  lemma ReadBack(n: nat)
    ensures Uint32(Bytes(n, 4)) == n <==> n < 0x1_0000_0000
  {
    Widths();
    NumberRoundTrip(n, 4);
    assert Bytes(n, 4)[..4] == Bytes(n, 4);
  }

  lemma AddrReadBack(a: Addr, family: int)
    requires Sized(a) && (a == NoAddr || FamilyOf(a) == family)
    ensures AddrIn(family, Raw(a)) == a
  {
    assert Raw(a)[..|Raw(a)|] == Raw(a);
  }

  lemma AttrsGiveRoute(route: Route, index: nat, attrs: Attrs)
    requires route.family == INET || route.family == INET6
    requires Sized(route.gateway) && (route.gateway == NoAddr || FamilyOf(route.gateway) == route.family)
    requires Sized(route.source) && (route.source == NoAddr || FamilyOf(route.source) == route.family)
    requires attrs == Gathered(AttributesOf(route, index)) && 0 < index < 0x1_0000_0000
    ensures Uint32(Get(attrs, RTA_OIF)) == index && Get(attrs, RTA_MULTIPATH) == [] &&
      Uint32(Get(attrs, RTA_TABLE)) == 0
    ensures GatewayIn(route.family, attrs) == route.gateway
    ensures AddrIn(route.family, Get(attrs, RTA_PREFSRC)) == route.source
    ensures Uint32(Get(attrs, RTA_PRIORITY)) == route.metric <==> route.metric < 0x1_0000_0000
  {
    forall u | u in {RTA_OIF, RTA_PRIORITY, RTA_GATEWAY, RTA_PREFSRC, RTA_MULTIPATH, RTA_TABLE, RTA_VIA} {
      AttributesRead(route, index, u);
    }
    ReadBack(index);
    ReadBack(route.metric);
    AddrReadBack(route.gateway, route.family);
    AddrReadBack(route.source, route.family);
  }

  /**
   The request for a route reads back as the route itself, an unset protocol
   as static, exactly if its numbers fit the message.
   */
  lemma RouteRoundTrip(ifs: Interfaces, route: Route)
    requires Consistent(ifs) && CanRequest(ifs, route) && Sized(route.gateway) && Sized(route.source)
    ensures DefaultRoutesIn(ifs, Message(route, ifs.index[route.iface])) == [Stored(route)]
      <==> route.metric < 0x1_0000_0000 && route.protocol < 256 && route.scope < 256
  {
    var index := ifs.index[route.iface];
    var attrs := Gathered(AttributesOf(route, index));
    MessageParts(route, index);
    AttrsGiveRoute(route, index, attrs);
    HeaderRead(route, index);
    RequestReads(ifs, route, Message(route, index), attrs, index);
    SameIfItFits(route, Uint32(Get(attrs, RTA_PRIORITY)));
  }

  /** The route as it is read back, number by number. */
  function AsRead(route: Route, metric: nat): Route {
    Route(route.iface, route.family, ProtocolOf(route) % 256, route.scope % 256, route.gateway, route.source, metric)
  }

  lemma RequestReads(ifs: Interfaces, route: Route, data: seq<byte>, attrs: Attrs, index: nat)
    requires route.family == INET || route.family == INET6
    requires |data| >= HEADER_SIZE && AttrsIn(data[HEADER_SIZE..], map[]) == attrs
    requires data[0] == route.family && data[1] == 0 && data[4] == MAIN_TABLE
    requires data[5] == ProtocolOf(route) % 256 && data[6] == route.scope % 256 && data[7] == UNICAST
    requires Uint32(Get(attrs, RTA_OIF)) == index > 0 && Get(attrs, RTA_MULTIPATH) == []
    requires Uint32(Get(attrs, RTA_TABLE)) == 0
    requires GatewayIn(route.family, attrs) == route.gateway
    requires AddrIn(route.family, Get(attrs, RTA_PREFSRC)) == route.source
    requires index in ifs.name && ifs.name[index] == route.iface != ""
    ensures DefaultRoutesIn(ifs, data) == [AsRead(route, Uint32(Get(attrs, RTA_PRIORITY)))]
  {
  }

  lemma SameIfItFits(route: Route, metric: nat)
    requires metric == route.metric <==> route.metric < 0x1_0000_0000
    ensures [AsRead(route, metric)] == [Stored(route)] <==>
      route.metric < 0x1_0000_0000 && route.protocol < 256 && route.scope < 256
  {
    assert [AsRead(route, metric)][0] == AsRead(route, metric) && [Stored(route)][0] == Stored(route);
  }

  lemma HeaderRead(route: Route, index: nat)
    requires route.family == INET || route.family == INET6
    requires Sized(route.gateway) && Sized(route.source)
    ensures var data := Message(route, index);
      && data[0] == route.family && data[1] == 0 && data[4] == MAIN_TABLE
      && data[5] == ProtocolOf(route) % 256 && data[6] == route.scope % 256 && data[7] == UNICAST
  {
  }

  /** The header of a request: family, no prefix, main table, protocol, scope, unicast, and zeros. */
  lemma RequestHeader(route: Route, index: nat)
    requires route.family == 2 || route.family == 10
    requires Sized(route.gateway) && Sized(route.source)
    ensures Message(route, index)[..12] == [route.family, 0, 0, 0, 254,
      (if route.protocol != 0 then route.protocol else 4) % 256, route.scope % 256, 1, 0, 0, 0, 0]
  {
    MessageParts(route, index);
  }

  // ----- next hops -----

  /** A next hop of a multipath route, with whatever attributes. */
  datatype Hop = Hop(flags: byte, hops: byte, index: nat, attrs: seq<Attribute>)

  predicate GoodHop(h: Hop) {
    h.index < 0x1_0000_0000 && HOP_SIZE + |Written(h.attrs)| < 0x1_0000
  }

  function HopBytes(h: Hop): seq<byte> {
    Bytes(HOP_SIZE + |Written(h.attrs)|, 2) + [h.flags, h.hops] + Bytes(h.index, 4) + Written(h.attrs)
  }

  predicate GoodHops(hops: seq<Hop>) {
    hops == [] || (GoodHop(hops[0]) && GoodHops(hops[1..]))
  }

  function HopsWritten(hops: seq<Hop>): seq<byte> {
    if hops == [] then [] else HopBytes(hops[0]) + HopsWritten(hops[1..])
  }

  /** The route through one hop, or none; without a gateway of its own it has the route's. */
  function OneHop(ifs: Interfaces, route: Route, h: Hop): seq<Route> {
    var gateway := GatewayIn(route.family, Gathered(h.attrs));
    var iface := if h.index == 0 then route.iface else if h.index in ifs.name then ifs.name[h.index] else "";
    if iface == "" then [] else
      [route.(iface := iface, gateway := if gateway != NoAddr then gateway else route.gateway)]
  }

  /** The routes through those hops whose interface is known, in order. */
  function HopRoutes(ifs: Interfaces, route: Route, hops: seq<Hop>): seq<Route> {
    if hops == [] then [] else OneHop(ifs, route, hops[0]) + HopRoutes(ifs, route, hops[1..])
  }

  lemma {:induction false} WrittenIsAligned(list: seq<Attribute>)
    ensures |Written(list)| % 4 == 0
    decreases |list|
  {
    if list != [] {
      var front, last := list[..|list| - 1], list[|list| - 1];
      WrittenIsAligned(front);
      BothAligned(|Written(front)|, |Attr(last.t, last.value)|);
    }
  }

  lemma BothAligned(a: nat, b: nat)
    requires a % 4 == 0 && b % 4 == 0
    ensures (a + b) % 4 == 0
  {
  }

  lemma Sliced(a: seq<byte>, b: seq<byte>, c: seq<byte>, d: seq<byte>, rest: seq<byte>, data: seq<byte>)
    requires |a| == 2 && |b| == 2 && |c| == 4 && data == a + b + c + d + rest
    ensures data[..2] == a && data[4..][..4] == c && data[8..8 + |d|] == d && data[8 + |d|..] == rest
  {
  }

  lemma HopFields(data: seq<byte>, size: nat, index: nat)
    requires 8 <= size < 0x1_0000 && size % 4 == 0 && size <= |data| && index < 0x1_0000_0000
    requires data[..2] == Bytes(size, 2) && data[4..][..4] == Bytes(index, 4)
    ensures CompleteHop(data) && Aligned(Read16(data)) == Read16(data) == size && Read32(data[4..]) == index
  {
    Widths();
    NumberRoundTrip(size, 2);
    NumberRoundTrip(index, 4);
  }

  lemma HopRead(h: Hop, rest: seq<byte>)
    requires GoodHop(h)
    ensures var data := HopBytes(h) + rest;
      && CompleteHop(data) && Aligned(Read16(data)) == Read16(data) == |HopBytes(h)|
      && Read32(data[4..]) == h.index
      && data[HOP_SIZE..Read16(data)] == Written(h.attrs)
      && data[Aligned(Read16(data))..] == rest
  {
    var data, attrs := HopBytes(h) + rest, Written(h.attrs);
    WrittenIsAligned(h.attrs);
    Sliced(Bytes(HOP_SIZE + |attrs|, 2), [h.flags, h.hops], Bytes(h.index, 4), attrs, rest, data);
    HopFields(data, HOP_SIZE + |attrs|, h.index);
  }

  lemma HopStep(ifs: Interfaces, route: Route, h: Hop, rest: seq<byte>, sofar: seq<Route>)
    requires Consistent(ifs) && GoodHop(h)
    ensures HopsIn(ifs, route, HopBytes(h) + rest, sofar) == HopsIn(ifs, route, rest, sofar + OneHop(ifs, route, h))
  {
    HopRead(h, rest);
    AttrsRoundTrip(h.attrs);
    assert sofar + [] == sofar;
  }

  /** No whole hop stands there: too short, or its length too small or too large. */
  ghost predicate HasNoHop(rest: seq<byte>) {
    |rest| < 8 ||
      var length := Number(rest[..2]);
      length < 8 || (length + 3) / 4 * 4 > |rest|
  }

  /** Next hops written one after the other give one route each, whatever garbage follows. */
  lemma {:induction false} HopsReadTo(ifs: Interfaces, route: Route, hops: seq<Hop>, rest: seq<byte>, sofar: seq<Route>)
    requires Consistent(ifs) && GoodHops(hops) && HasNoHop(rest)
    ensures HopsIn(ifs, route, HopsWritten(hops) + rest, sofar) == sofar + HopRoutes(ifs, route, hops)
    decreases |hops|
  {
    if hops == [] {
      assert [] + rest == rest && sofar + [] == sofar;
    } else {
      var one := OneHop(ifs, route, hops[0]);
      Regroup(HopBytes(hops[0]), HopsWritten(hops[1..]), rest);
      HopStep(ifs, route, hops[0], HopsWritten(hops[1..]) + rest, sofar);
      HopsReadTo(ifs, route, hops[1..], rest, sofar + one);
      RegroupRoutes(sofar, one, HopRoutes(ifs, route, hops[1..]));
    }
  }

  lemma RegroupRoutes(a: seq<Route>, b: seq<Route>, c: seq<Route>)
    ensures (a + b) + c == a + (b + c)
  {
  }

  // ----- a whole dump -----

  datatype DumpMessage = DumpMessage(newRoute: bool, data: seq<byte>)

  function Deduped(rs: seq<Route>): seq<Route> {
    if rs == [] then [] else
      var front := Deduped(rs[..|rs| - 1]);
      var last := rs[|rs| - 1];
      if Exists(last, front) then front else front + [last]
  }

  /** Every route a dump's messages report, repeats included. */
  function Reported(ifs: Interfaces, messages: seq<DumpMessage>): seq<Route> {
    if messages == [] then [] else
      var last := messages[|messages| - 1];
      Reported(ifs, messages[..|messages| - 1]) + if last.newRoute then DefaultRoutesIn(ifs, last.data) else []
  }

  /** One dump for each family asked for, one after the other. */
  function ReportedInAll(ifs: Interfaces, dumps: seq<seq<DumpMessage>>): seq<Route> {
    if dumps == [] then [] else ReportedInAll(ifs, dumps[..|dumps| - 1]) + Reported(ifs, dumps[|dumps| - 1])
  }

  lemma ReportedStep(ifs: Interfaces, earlier: seq<Route>, messages: seq<DumpMessage>, m: nat)
    requires m < |messages|
    ensures earlier + Reported(ifs, messages[..m + 1]) == earlier + Reported(ifs, messages[..m])
      + if messages[m].newRoute then DefaultRoutesIn(ifs, messages[m].data) else []
  {
    assert messages[..m + 1][..m] == messages[..m];
  }

  method DefaultRoutes(ifs: Interfaces, dumps: seq<seq<DumpMessage>>) returns (routes: seq<Route>)
    ensures routes == Deduped(ReportedInAll(ifs, dumps))
  {
    routes := [];
    for f := 0 to |dumps|
      invariant routes == Deduped(ReportedInAll(ifs, dumps[..f]))
    {
      routes := AddDump(ifs, ReportedInAll(ifs, dumps[..f]), routes, dumps[f]);
      assert dumps[..f + 1][..f] == dumps[..f];
    }
    assert dumps[..|dumps|] == dumps;
  }

  method AddDump(ifs: Interfaces, ghost earlier: seq<Route>, routes: seq<Route>, messages: seq<DumpMessage>)
    returns (out: seq<Route>)
    requires routes == Deduped(earlier)
    ensures out == Deduped(earlier + Reported(ifs, messages))
  {
    out := routes;
    assert earlier + Reported(ifs, messages[..0]) == earlier;
    for m := 0 to |messages|
      invariant out == Deduped(earlier + Reported(ifs, messages[..m]))
    {
      ReportedStep(ifs, earlier, messages, m);
      ghost var before := earlier + Reported(ifs, messages[..m]);
      if messages[m].newRoute {
        var parsed := ParseDefaultRoutes(ifs, messages[m].data);
        out := AddNew(before, out, parsed);
      } else {
        assert before + [] == before;
      }
    }
    assert messages[..|messages|] == messages;
  }

  lemma OneMoreDeduped(before: seq<Route>, parsed: seq<Route>, i: nat)
    requires i < |parsed|
    ensures var d := Deduped(before + parsed[..i]);
      Deduped(before + parsed[..i + 1]) == if Exists(parsed[i], d) then d else d + [parsed[i]]
  {
    var all := before + parsed[..i + 1];
    assert all[..|all| - 1] == before + parsed[..i] && all[|all| - 1] == parsed[i];
  }

  method AddNew(ghost before: seq<Route>, routes: seq<Route>, parsed: seq<Route>) returns (out: seq<Route>)
    requires routes == Deduped(before)
    ensures out == Deduped(before + parsed)
  {
    out := routes;
    assert before + parsed[..0] == before;
    for i := 0 to |parsed|
      invariant out == Deduped(before + parsed[..i])
    {
      OneMoreDeduped(before, parsed, i);
      if !Exists(parsed[i], out) {
        out := out + [parsed[i]];
      }
    }
    assert parsed[..|parsed|] == parsed;
  }

  /** The message reports a new route, and this is one of what it gives. */
  ghost predicate Reports(ifs: Interfaces, messages: seq<DumpMessage>, m: int, r: Route) {
    0 <= m < |messages| && messages[m].newRoute && r in DefaultRoutesIn(ifs, messages[m].data)
  }

  ghost predicate DumpReports(ifs: Interfaces, messages: seq<DumpMessage>, r: Route) {
    exists m :: Reports(ifs, messages, m, r)
  }

  lemma {:induction false} ReportedExactly(ifs: Interfaces, messages: seq<DumpMessage>, r: Route)
    ensures r in Reported(ifs, messages) <==> DumpReports(ifs, messages, r)
    decreases |messages|
  {
    if messages != [] {
      var n := |messages| - 1;
      var front := messages[..n];
      ReportedExactly(ifs, front, r);
      assert forall m :: 0 <= m < n ==> Reports(ifs, front, m, r) == Reports(ifs, messages, m, r);
      assert Reports(ifs, messages, n, r) <==> messages[n].newRoute && r in DefaultRoutesIn(ifs, messages[n].data);
    }
  }

  ghost predicate AnyReports(ifs: Interfaces, dumps: seq<seq<DumpMessage>>, r: Route) {
    exists f :: 0 <= f < |dumps| && DumpReports(ifs, dumps[f], r)
  }

  lemma AnyOneMore(ifs: Interfaces, dumps: seq<seq<DumpMessage>>, n: nat, r: Route)
    requires n + 1 == |dumps|
    ensures AnyReports(ifs, dumps, r) <==> AnyReports(ifs, dumps[..n], r) || DumpReports(ifs, dumps[n], r)
  {
    var front := dumps[..n];
    if f :| 0 <= f < |front| && DumpReports(ifs, front[f], r) { assert DumpReports(ifs, dumps[f], r); }
    if f :| 0 <= f < |dumps| && DumpReports(ifs, dumps[f], r) {
      if f < n { assert DumpReports(ifs, front[f], r); }
    }
  }

  /** The program collects exactly what the messages about new routes give, from every dump. */
  lemma {:induction false} ReportedInAllExactly(ifs: Interfaces, dumps: seq<seq<DumpMessage>>, r: Route)
    ensures r in ReportedInAll(ifs, dumps) <==> AnyReports(ifs, dumps, r)
    decreases |dumps|
  {
    if dumps != [] {
      var n := |dumps| - 1;
      ReportedInAllExactly(ifs, dumps[..n], r);
      ReportedExactly(ifs, dumps[n], r);
      AnyOneMore(ifs, dumps, n, r);
    }
  }

  lemma {:induction false} DedupedAll(rs: seq<Route>, i: nat)
    requires i < |rs|
    ensures Exists(rs[i], Deduped(rs))
    decreases |rs|
  {
    var front, last := rs[..|rs| - 1], rs[|rs| - 1];
    var d, e := Deduped(front), Deduped(rs);
    if i < |front| {
      DedupedAll(front, i);
      var k :| 0 <= k < |d| && Same(rs[i], d[k]);
      assert e[k] == d[k];
    } else if !Exists(last, d) {
      assert Same(last, e[|d|]);
    }
  }

  ghost predicate OnceFrom(d: seq<Route>, rs: seq<Route>) {
    && (forall i :: 0 <= i < |d| ==> d[i] in rs)
    && (forall i, j :: 0 <= i < j < |d| ==> !Same(d[j], d[i]))
  }

  lemma {:induction false} DedupedOnce(rs: seq<Route>)
    ensures OnceFrom(Deduped(rs), rs)
    decreases |rs|
  {
    if rs != [] {
      var front, last := rs[..|rs| - 1], rs[|rs| - 1];
      DedupedOnce(front);
      OneMore(Deduped(front), front, last, rs);
    }
  }

  lemma OneMore(d: seq<Route>, front: seq<Route>, last: Route, rs: seq<Route>)
    requires OnceFrom(d, front) && rs != [] && front == rs[..|rs| - 1] && last == rs[|rs| - 1]
    ensures OnceFrom(if Exists(last, d) then d else d + [last], rs)
  {
    forall i | 0 <= i < |d| ensures d[i] in rs {
      assert d[i] in front;
    }
  }

  /**
   If the messages report routes of the table, and each at least once, the
   program ends with a listing of the table: every route exactly once.
   */
  lemma DumpIsListing(ifs: Interfaces, dumps: seq<seq<DumpMessage>>, t: Table)
    requires Proper(t)
    requires forall r :: r in ReportedInAll(ifs, dumps) ==> SlotOf(r) in t && t[SlotOf(r)] == r
    requires forall s :: s in t ==> t[s] in ReportedInAll(ifs, dumps)
    ensures Lists(Deduped(ReportedInAll(ifs, dumps)), t)
  {
    var rs := ReportedInAll(ifs, dumps);
    var d := Deduped(rs);
    DedupedOnce(rs);
    forall s | s in t ensures t[s] in d {
      var i :| 0 <= i < |rs| && rs[i] == t[s];
      DedupedAll(rs, i);
      var k :| 0 <= k < |d| && Same(rs[i], d[k]);
      assert d[k] in rs;
    }
  }
}
