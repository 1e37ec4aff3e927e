/**
 Why the run theorems ask for one list of families of default-route
 connections, and exactly when two lists will do: two connections one over the
 other, let go oldest first, give the host its table back exactly if the upper
 one has all the families of the lower one, or none of them.
 */
module MixedFamilies {
  import opened Routes
  import opened Undo
  import opened Demotion
  import opened Connections
  import opened Tracking
  import opened Connecting
  import opened Runs
  import opened Progress
  import opened TwoTakeovers

  // ----- the run -----

  function TakenConn(b: Bearer, cs: seq<Change>): Conn {
    Conn(b.iface, RoutesFor(b, DEFAULT_METRIC), DEFAULT_METRIC, true, cs)
  }

  /** What an accepted default connect has done. */
  lemma Accepted(s: State, id: string, b: Bearer, families: seq<int>, u: State) returns (cs: seq<Change>)
    requires Proper(s.table) && GoodFamilies(families) && OneLinkEach(b, families)
    requires id !in s.conns && Connects(s, id, b, true, u) && id in u.conns
    ensures Clears(s.table, families, cs) && TakenOver(s.table, cs, RoutesFor(b, DEFAULT_METRIC), u.table)
    ensures forall i :: 0 <= i < |families| ==> !Holds(s.table, RoutesFor(b, DEFAULT_METRIC)[i])
    ensures u.conns == AllDemoted(s.conns, cs)[id := TakenConn(b, cs)]
    ensures u.journal.Keys <= s.journal.Keys + {b.iface}
  {
    var current :| Lists(current, s.table) && u == ConnectedAsDefault(s, id, b, current);
    cs := Changes(current, RoutesFor(b, DEFAULT_METRIC));
    RefusedExactlyIfHeld(s.table, b, families, current);
    TakeoverClears(s.table, b, families, current);
    TakesOver(s.table, cs, RoutesFor(b, DEFAULT_METRIC));
  }

  lemma LowsMetric(p: Pair, i: nat)
    requires p.Valid() && i < |p.below|
    ensures p.Demoted()[i].iface == p.low.iface && p.Demoted()[i].family == p.below[i]
    ensures p.Demoted()[i].metric <= DEFAULT_METRIC <==> p.below[i] !in p.above
  {
    LowsDemoted(p, i);
  }

  lemma LowsMetrics(p: Pair)
    requires p.Valid()
    ensures forall i :: 0 <= i < |p.below| ==>
      && p.Demoted()[i].iface == p.low.iface && p.Demoted()[i].family == p.below[i]
      && (p.Demoted()[i].metric <= DEFAULT_METRIC <==> p.below[i] !in p.above)
  {
    forall i | 0 <= i < |p.below|
      ensures p.Demoted()[i].iface == p.low.iface && p.Demoted()[i].family == p.below[i]
      ensures p.Demoted()[i].metric <= DEFAULT_METRIC <==> p.below[i] !in p.above
    {
      LowsMetric(p, i);
    }
  }

  /** The lower connection is still the default exactly if one of its families is not the upper one's. */
  lemma LowsFlag(p: Pair)
    requires p.Valid()
    ensures var c := DemotedConn(TakenConn(p.low, p.first), p.second);
      && c.iface == p.low.iface && c.routes == p.Demoted() && c.changes == p.first && (c.isDefault <==> !p.Within())
  {
    LowsMetrics(p);
    var c := TakenConn(p.low, p.first);
    NewConn(p.low, p.below, DEFAULT_METRIC, p.first);
    FlagOfReshaped(c, p.below, p.above, p.Demoted());
    assert DemotedConn(c, p.second) == Rerouted(c, p.Demoted());
  }

  lemma FlagOfReshaped(c: Conn, families: seq<int>, above: seq<int>, routes: seq<Route>)
    requires Shaped(c, families) && |routes| == |families|
    requires forall i :: 0 <= i < |routes| ==>
      && routes[i].iface == c.iface && routes[i].family == families[i]
      && (routes[i].metric <= DEFAULT_METRIC <==> families[i] !in above)
    ensures var d := Rerouted(c, routes);
      && d.iface == c.iface && d.routes == routes && d.changes == c.changes
      && (d.isDefault <==> !AllIn(families, above))
  {
    Reshaped(c, families, routes);
    FlagByMetric(Rerouted(c, routes));
    if i :| 0 <= i < |routes| && routes[i].metric <= DEFAULT_METRIC {
      assert families[i] in families;
    }
  }

  lemma FlagByMetric(c: Conn)
    requires Formed(c)
    ensures c.isDefault <==> exists i :: 0 <= i < |c.routes| && c.routes[i].metric <= DEFAULT_METRIC
  {
    var m := RouteState(c.routes, c.iface);
    assert c.routes[0].iface == c.iface;
  }

  lemma UpperUntouched(p: Pair)
    requires p.Valid()
    ensures RestoredConn(TakenConn(p.high, p.second), p.first) == TakenConn(p.high, p.second)
  {
    forall r | r in ReplacementSet(p.first) ensures r.metric > DEFAULT_METRIC { }
    UntouchedByRestoration(TakenConn(p.high, p.second), p.first);
  }

  /** a connects, then b over it; then a lets go, then b. No connect is refused. */
  ghost predicate OldestFirst(base: Table, a: string, low: Bearer, b: string, high: Bearer,
                              one: State, both: State, other: State, last: State) {
    && a != b && low.iface != high.iface
    && Connects(State(base, map[], map[]), a, low, true, one) && a in one.conns
    && Connects(one, b, high, true, both) && b in both.conns
    && Disconnects(both, a, other) && Disconnects(other, b, last)
  }

  lemma OneDemoted(a: string, c: Conn, cs: seq<Change>)
    ensures AllDemoted(map[], cs) == map[] && AllDemoted(map[a := c], cs) == map[a := DemotedConn(c, cs)]
  {
  }

  /** a and b have connected as p says, and nobody else. */
  ghost predicate Stands(p: Pair, a: string, b: string, s: State) {
    && p.Valid() && a != b && s.table == p.both && s.journal.Keys <= {p.low.iface, p.high.iface}
    && s.conns == map[a := DemotedConn(TakenConn(p.low, p.first), p.second), b := TakenConn(p.high, p.second)]
  }

  lemma OneConnected(base: Table, a: string, low: Bearer, below: seq<int>, one: State) returns (first: seq<Change>)
    requires Proper(base) && GoodFamilies(below) && OneLinkEach(low, below)
    requires Connects(State(base, map[], map[]), a, low, true, one) && a in one.conns
    ensures Clears(base, below, first) && TakenOver(base, first, RoutesFor(low, DEFAULT_METRIC), one.table)
    ensures forall i :: 0 <= i < |below| ==> !Holds(base, RoutesFor(low, DEFAULT_METRIC)[i])
    ensures one.conns == map[a := TakenConn(low, first)] && one.journal.Keys <= {low.iface}
  {
    first := Accepted(State(base, map[], map[]), a, low, below, one);
    OneDemoted(a, TakenConn(low, first), first);
  }

  lemma OtherConnected(one: State, a: string, ca: Conn, b: string, high: Bearer, above: seq<int>, both: State)
    returns (second: seq<Change>)
    requires Proper(one.table) && GoodFamilies(above) && OneLinkEach(high, above) && a != b && one.conns == map[a := ca]
    requires Connects(one, b, high, true, both) && b in both.conns
    ensures Clears(one.table, above, second)
    ensures TakenOver(one.table, second, RoutesFor(high, DEFAULT_METRIC), both.table)
    ensures both.conns == map[a := DemotedConn(ca, second), b := TakenConn(high, second)]
    ensures both.journal.Keys <= one.journal.Keys + {high.iface}
  {
    second := Accepted(one, b, high, above, both);
    OneDemoted(a, ca, second);
  }

  lemma BothConnected(base: Table, a: string, low: Bearer, below: seq<int>, b: string, high: Bearer, above: seq<int>,
                      one: State, both: State) returns (p: Pair)
    requires Proper(base) && GoodFamilies(below) && OneLinkEach(low, below)
    requires GoodFamilies(above) && OneLinkEach(high, above) && a != b && low.iface != high.iface
    requires Connects(State(base, map[], map[]), a, low, true, one) && a in one.conns
    requires Connects(one, b, high, true, both) && b in both.conns
    ensures Stands(p, a, b, both)
    ensures p.base == base && p.below == below && p.above == above
  {
    var first := OneConnected(base, a, low, below, one);
    var second := OtherConnected(one, a, TakenConn(low, first), b, high, above, both);
    p := Pair(base, low, high, below, above, first, second, one.table, both.table);
  }

  lemma OneRestored(a: string, ca: Conn, b: string, cb: Conn, cs: seq<Change>)
    requires a != b
    ensures AllRestored(map[a := ca, b := cb], cs) - {a} == map[b := RestoredConn(cb, cs)]
  {
  }

  lemma HeirOfTwo(a: string, ca: Conn, b: string, cb: Conn)
    requires a != b
    ensures AllHeirs(map[a := ca, b := cb], ca) - {a} == map[b := HeirOf(cb, ca)]
  {
  }

  lemma DefaultGoes(s: State, a: string, ca: Conn, b: string, cb: Conn, t: State)
    requires a != b && s.conns == map[a := ca, b := cb] && ca.isDefault && Disconnects(s, a, t)
    requires RestoredConn(cb, ca.changes) == cb
    ensures t.table == UndoneAll(RemovedAll(s.table, ca.routes), ca.changes)
    ensures t.conns == map[b := cb] && t.journal == s.journal - {ca.iface}
  {
    OneRestored(a, ca, b, cb, ca.changes);
    assert s.conns[a] == ca;
  }

  lemma BehindGoes(s: State, a: string, ca: Conn, b: string, cb: Conn, t: State)
    requires a != b && s.conns == map[a := ca, b := cb] && !ca.isDefault && Disconnects(s, a, t)
    ensures t.table == RemovedAll(s.table, ca.routes) && t.conns == map[b := HeirOf(cb, ca)]
  {
    HeirOfTwo(a, ca, b, cb);
    assert s.conns[a] == ca;
  }

  lemma BehindGoesJournal(s: State, a: string, ca: Conn, b: string, cb: Conn, journal: map<string, Entry>)
    requires s.conns == map[a := ca, b := cb] && !ca.isDefault && JournalWithout(s, ca, journal)
    requires s.journal.Keys <= {ca.iface, cb.iface}
    ensures journal.Keys <= {cb.iface}
  {
    forall name: string | name != cb.iface ensures name in journal ==> name in s.journal && name != ca.iface {
      assert forall x :: Rewrites(s.conns, x, ca) ==> s.conns[x].iface == cb.iface;
      assert EqualAt(journal, s.journal - {ca.iface}, name);
    }
  }

  lemma LastGoes(s: State, b: string, cb: Conn, t: State)
    requires s.conns == map[b := cb] && cb.isDefault && Disconnects(s, b, t)
    ensures t.table == UndoneAll(RemovedAll(s.table, cb.routes), cb.changes)
    ensures t.conns == map[] && (s.journal.Keys <= {cb.iface} ==> t.journal == map[])
  {
    assert ConnsWithout(s.conns, cb) - {b} == map[];
  }

  lemma LowerGoesAsDefault(p: Pair, a: string, b: string, s: State, t: State, u: State)
    requires Stands(p, a, b, s) && !p.Within() && Disconnects(s, a, t) && Disconnects(t, b, u)
    ensures u.table == BothGone(p) && u.journal == map[] && u.conns == map[]
    ensures Undoable(s, a) <==> UndoSucceeds(RemovedAll(p.both, p.Demoted()), p.first)
    ensures Undoable(t, b) <==> UndoSucceeds(RemovedAll(LowGone(p), p.Highs()), p.second)
  {
    LowsFlag(p);
    UpperUntouched(p);
    DefaultGoes(s, a, s.conns[a], b, s.conns[b], t);
    LastGoes(t, b, t.conns[b], u);
  }

  lemma LowerGoesBehind(p: Pair, a: string, b: string, s: State, t: State, u: State)
    requires Stands(p, a, b, s) && p.Within() && Disconnects(s, a, t) && Disconnects(t, b, u)
    ensures u.table == p.base && u.journal == map[] && u.conns == map[]
    ensures Undoable(s, a) && Undoable(t, b)
  {
    LowsFlag(p);
    WithinRestores(p, s.conns[a]);
    BehindGoes(s, a, s.conns[a], b, s.conns[b], t);
    BehindGoesJournal(s, a, s.conns[a], b, s.conns[b], t.journal);
    LastGoes(t, b, t.conns[b], u);
  }

  /**
   The host's table is back exactly if the upper connection has all the
   families of the lower one, or none of them.
   */
  lemma BackExactlyIfNested(base: Table, a: string, low: Bearer, below: seq<int>, b: string, high: Bearer,
                            above: seq<int>, one: State, both: State, other: State, last: State)
    requires Proper(base) && GoodFamilies(below) && OneLinkEach(low, below)
    requires GoodFamilies(above) && OneLinkEach(high, above) &&
      OldestFirst(base, a, low, b, high, one, both, other, last)
    ensures last.table == base <==> AllIn(below, above) || NoneIn(below, above)
    ensures AllIn(below, above) || NoneIn(below, above) ==> Undoable(both, a) && Undoable(other, b)
    ensures last.journal == map[] && last.conns == map[]
  {
    var p := BothConnected(base, a, low, below, b, high, above, one, both);
    if p.Within() {
      LowerGoesBehind(p, a, b, both, other, last);
    } else {
      LowerGoesAsDefault(p, a, b, both, other, last);
      if p.Disjoint() {
        DisjointRestores(p);
      } else {
        var i :| 0 <= i < |below| && below[i] in above;
        RouteLeftBehind(p, i);
      }
    }
  }

  // ----- such runs exist -----

  lemma ConnectIsAccepted(s: State, id: string, b: Bearer, families: seq<int>) returns (u: State)
    requires Proper(s.table) && GoodFamilies(families) && OneLinkEach(b, families) && id !in s.conns
    requires forall slot :: slot in s.table ==> s.table[slot].iface != b.iface
    ensures Connects(s, id, b, true, u) && id in u.conns
  {
    var current := ListingExists(s.table);
    RefusedExactlyIfHeld(s.table, b, families, current);
    u := ConnectedAsDefault(s, id, b, current);
  }

  lemma TakenOverIfaces(t: Table, families: seq<int>, cs: seq<Change>, b: Bearer, u: Table, iface: string)
    requires Clears(t, families, cs) && TakenOver(t, cs, RoutesFor(b, DEFAULT_METRIC), u) && iface != b.iface
    requires forall s :: s in t ==> t[s].iface != iface
    ensures forall s :: s in u ==> u[s].iface != iface
  {
    forall r | r in ReplacementSet(cs) ensures r.iface != iface {
      var i :| 0 <= i < |cs| && r == Stored(cs[i].replacement);
      assert Holds(t, cs[i].original);
    }
  }

  lemma OneIsAccepted(base: Table, a: string, low: Bearer, below: seq<int>, iface: string)
    returns (one: State, ca: Conn)
    requires Proper(base) && GoodFamilies(below) && OneLinkEach(low, below) && iface != low.iface
    requires forall s :: s in base ==> base[s].iface != low.iface && base[s].iface != iface
    ensures Connects(State(base, map[], map[]), a, low, true, one) && one.conns == map[a := ca]
    ensures Proper(one.table) && forall s :: s in one.table ==> one.table[s].iface != iface
  {
    one := ConnectIsAccepted(State(base, map[], map[]), a, low, below);
    var first := OneConnected(base, a, low, below, one);
    TakenOverIfaces(base, below, first, low, one.table, iface);
    ca := TakenConn(low, first);
  }

  lemma OtherIsAccepted(one: State, a: string, ca: Conn, b: string, high: Bearer, above: seq<int>) returns (both: State)
    requires Proper(one.table) && GoodFamilies(above) && OneLinkEach(high, above) && one.conns == map[a := ca] && a != b
    requires forall s :: s in one.table ==> one.table[s].iface != high.iface
    ensures Connects(one, b, high, true, both) && both.conns.Keys == {a, b}
  {
    both := ConnectIsAccepted(one, b, high, above);
    var second := OtherConnected(one, a, ca, b, high, above, both);
  }

  lemma NobodyElse(conns: map<string, Conn>, id: string, other: string)
    requires conns.Keys <= {id, other} && id in conns
    ensures OneHeir(conns, conns[id])
  {
  }

  lemma BothCanGo(both: State, a: string, b: string) returns (other: State, last: State)
    requires both.conns.Keys == {a, b} && a != b
    ensures Disconnects(both, a, other) && Disconnects(other, b, last)
  {
    NobodyElse(both.conns, a, b);
    other := RemovalExists(both, a);
    assert other.conns.Keys == {b};
    NobodyElse(other.conns, b, b);
    last := RemovalExists(other, b);
  }

  /** Wherever the host has no routes on the two interfaces. */
  lemma OldestFirstExists(base: Table, a: string, low: Bearer, below: seq<int>, b: string, high: Bearer,
                          above: seq<int>)
    returns (one: State, both: State, other: State, last: State)
    requires Proper(base) && GoodFamilies(below) && OneLinkEach(low, below)
    requires GoodFamilies(above) && OneLinkEach(high, above) && a != b && low.iface != high.iface
    requires forall s :: s in base ==> base[s].iface != low.iface && base[s].iface != high.iface
    ensures OldestFirst(base, a, low, b, high, one, both, other, last) && one.conns.Keys == {a}
  {
    var ca;
    one, ca := OneIsAccepted(base, a, low, below, high.iface);
    both := OtherIsAccepted(one, a, ca, b, high, above);
    other, last := BothCanGo(both, a, b);
  }

  /**
   So with different families the host need not get its table back: four steps
   after which nothing is connected any more and a route is left behind.
   */
  lemma MixedFamiliesLeaveARoute()
    returns (start: State, one: State, both: State, other: State, last: State, low: Bearer, high: Bearer)
    ensures start == State(map[], map[], map[])
    ensures Step(start, Connect("low", low, true), one) && Step(one, Connect("high", high, true), both)
    ensures Step(both, Disconnect("low"), other) && Step(other, Disconnect("high"), last)
    ensures last.conns == map[] && last.journal == map[] && last.table != map[]
  {
    start := State(map[], map[], map[]);
    low := Bearer("wwan0", [Link(2, NoAddr, NoAddr), Link(10, NoAddr, NoAddr)]);
    high := Bearer("wwan1", [Link(2, NoAddr, NoAddr)]);
    one, both, other, last := OldestFirstExists(map[], "low", low, [2, 10], "high", high, [2]);
    BackExactlyIfNested(map[], "low", low, [2, 10], "high", high, [2], one, both, other, last);
    TwoAndTen();
    FirstConnectIsStep(start, "low", low, one);
    FirstConnectIsStep(one, "high", high, both);
  }

  lemma TwoAndTen()
    ensures !AllIn([2, 10], [2]) && !NoneIn([2, 10], [2])
  {
    assert [2, 10][0] == 2 && [2, 10][1] == 10 && [2][0] == 2;
    assert 2 in [2, 10] && 10 in [2, 10] && 2 in [2] && 10 !in [2];
  }

  lemma FirstConnectIsStep(s: State, id: string, b: Bearer, u: State)
    requires id !in s.conns && Connects(s, id, b, true, u)
    ensures Step(s, Connect(id, b, true), u)
  {
    assert Disconnects(s, id, s);
  }
}
