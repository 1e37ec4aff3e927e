/**
 What every connect and disconnect keeps, and what a whole run gives back.
 base is the host's table before the first connection; stack lists the
 connections that took over the default route, oldest first; these all use
 the same families.
 */
module Tracking {
  import opened Routes
  import opened Undo
  import opened Connections

  // ----- the invariant, part by part -----

  ghost predicate GoodFamilies(families: seq<int>) {
    families != [] && forall i, j :: 0 <= i < j < |families| ==> families[i] != families[j]
  }

  /** Routes on the connection's own interface; metric and flag as the routes say. */
  ghost predicate Formed(c: Conn) {
    && c.routes != []
    && (forall i :: 0 <= i < |c.routes| ==> c.routes[i].iface == c.iface)
    && c == WithRoutes(c, c.routes)
  }

  /** And one route per family. */
  ghost predicate Shaped(c: Conn, families: seq<int>) {
    && Formed(c)
    && |c.routes| == |families|
    && forall i :: 0 <= i < |families| ==> c.routes[i].family == families[i]
  }

  ghost predicate AllFormed(conns: map<string, Conn>) {
    && (forall id :: id in conns ==> Formed(conns[id]))
    && DistinctIfaces(conns)
  }

  ghost predicate DistinctIfaces(conns: map<string, Conn>) {
    forall a, b :: a in conns && b in conns && a != b ==> conns[a].iface != conns[b].iface
  }

  /** Whatever took over the default route has the families; secondary connections may have others. */
  ghost predicate StackShaped(conns: map<string, Conn>, families: seq<int>, stack: seq<string>) {
    forall id :: id in stack ==> id in conns && Shaped(conns[id], families)
  }

  ghost predicate AllAt(c: Conn, metric: nat) {
    forall i :: 0 <= i < |c.routes| ==> c.routes[i].metric == metric
  }

  ghost predicate AllBehind(c: Conn) {
    forall i :: 0 <= i < |c.routes| ==> c.routes[i].metric > DEFAULT_METRIC
  }

  ghost predicate NoRepeats(stack: seq<string>) {
    forall i, j :: 0 <= i < j < |stack| ==> stack[i] != stack[j]
  }

  ghost predicate IsTop(stack: seq<string>, id: string) {
    stack != [] && id == stack[|stack| - 1]
  }

  /**
   Only the top of the stack sits at the default metric; the others are
   behind; only the stack has changes to undo.
   */
  ghost predicate Stacked(conns: map<string, Conn>, stack: seq<string>) {
    && (forall id :: id in stack ==> id in conns)
    && NoRepeats(stack)
    && (forall id :: id in conns && id !in stack ==> conns[id].changes == [])
    && (forall id :: id in conns && !IsTop(stack, id) ==> AllBehind(conns[id]))
    && (forall id :: id in conns && IsTop(stack, id) ==> AllAt(conns[id], DEFAULT_METRIC))
  }

  ghost predicate InFamilies(s: Slot, families: seq<int>) {
    s.family in families && s.metric <= DEFAULT_METRIC
  }

  /** The first takeover moved every host route of the families that was at the default metric or below it. */
  ghost predicate Displaced(base: Table, families: seq<int>, cs: seq<Change>) {
    && Planned(base, cs)
    && (forall s :: s in base ==> (InFamilies(s, families) <==> s in Originals(cs)))
    && forall i :: 0 <= i < |cs| ==>
      cs[i].replacement.metric > DEFAULT_METRIC && cs[i].replacement.iface == cs[i].original.iface
  }

  /** cs moved the routes of the connection below from the default metric to where they are now. */
  ghost predicate Linked(below: Conn, cs: seq<Change>) {
    && Distinct(cs)
    && ReplacementSet(cs) == StoredSet(below.routes)
    && forall i :: 0 <= i < |cs| ==>
      cs[i].original == cs[i].replacement.(metric := DEFAULT_METRIC) && cs[i].replacement.protocol != 0
  }

  ghost predicate AllLinked(conns: map<string, Conn>, stack: seq<string>)
    requires forall id :: id in stack ==> id in conns
  {
    forall k :: 0 < k < |stack| ==> Linked(conns[stack[k - 1]], conns[stack[k]].changes)
  }

  /** The host's own routes as they now are. */
  ghost function Host(base: Table, conns: map<string, Conn>, stack: seq<string>): Table
    requires forall id :: id in stack ==> id in conns
  {
    if stack == [] then base else MovedAll(base, conns[stack[0]].changes)
  }

  /** All tracked routes, as the kernel reports them. */
  ghost function Tracked(conns: map<string, Conn>): set<Route> {
    set id, r | id in conns && r in StoredSet(conns[id].routes) :: r
  }

  /** The table is the host's routes and the tracked ones, in disjoint slots. */
  ghost predicate Laid(t: Table, host: Table, tracked: set<Route>) {
    && Proper(t)
    && (forall s :: s in host ==> s in t && t[s] == host[s])
    && (forall r :: r in tracked ==> SlotOf(r) in t && t[SlotOf(r)] == r && SlotOf(r) !in host)
    && (forall s :: s in t ==> s in host || t[s] in tracked)
  }

  ghost predicate Recorded(journal: map<string, Entry>, id: string, c: Conn) {
    if c.changes == [] then c.iface !in journal
    else c.iface in journal && journal[c.iface].modem == id && journal[c.iface].changes == c.changes
  }

  ghost predicate Names(conns: map<string, Conn>, name: string) {
    exists id :: id in conns && conns[id].iface == name
  }

  /** The journal holds exactly the changes still to be undone. */
  ghost predicate Journalled(journal: map<string, Entry>, conns: map<string, Conn>) {
    && (forall id :: id in conns ==> Recorded(journal, id, conns[id]))
    && (forall name :: name in journal ==> Names(conns, name))
  }

  /** The connections and their change lists nest as the stack says. */
  ghost predicate Nested(conns: map<string, Conn>, base: Table, families: seq<int>, stack: seq<string>) {
    && AllFormed(conns) && StackShaped(conns, families, stack)
    && Stacked(conns, stack)
    && (stack != [] ==> Displaced(base, families, conns[stack[0]].changes))
    && AllLinked(conns, stack)
  }

  ghost predicate Inv(s: State, base: Table, families: seq<int>, stack: seq<string>) {
    && Proper(base) && GoodFamilies(families)
    && Nested(s.conns, base, families, stack)
    && Laid(s.table, Host(base, s.conns, stack), Tracked(s.conns))
    && Journalled(s.journal, s.conns)
  }

  // ----- single routes through demotion and restoration -----

  /** A route that is the original of a change becomes its replacement. */
  lemma {:induction false} RouteDemoted(r: Route, cs: seq<Change>, j: nat)
    requires Distinct(cs) && j < |cs| && Same(r, cs[j].original)
    requires forall i :: 0 <= i < |cs| ==> cs[i].original.metric <= DEFAULT_METRIC < cs[i].replacement.metric
    ensures DemotedRoute(r, cs) == cs[j].replacement
    decreases |cs|
  {
    var n := |cs| - 1;
    if j == n {
      RouteNotDemoted(r, cs[..n]);
    } else {
      RouteDemoted(r, cs[..n], j);
    }
  }

  lemma {:induction false} RouteNotDemoted(r: Route, cs: seq<Change>)
    requires forall i :: 0 <= i < |cs| ==> !Same(r, cs[i].original)
    ensures DemotedRoute(r, cs) == r
    decreases |cs|
  {
    if cs != [] {
      RouteNotDemoted(r, cs[..|cs| - 1]);
    }
  }

  /** And back: a route that is the replacement of a change becomes its original. */
  lemma {:induction false} RouteRestored(r: Route, cs: seq<Change>, j: nat)
    requires Distinct(cs) && j < |cs| && Same(r, cs[j].replacement)
    requires forall i :: 0 <= i < |cs| ==> cs[i].original.metric <= DEFAULT_METRIC < cs[i].replacement.metric
    ensures RestoredRoute(r, cs) == cs[j].original
    decreases |cs|
  {
    var n := |cs| - 1;
    if j == n {
      RouteNotRestored(cs[n].original, cs[..n]);
    } else {
      RouteRestored(r, cs[..n], j);
    }
  }

  lemma {:induction false} RouteNotRestored(r: Route, cs: seq<Change>)
    requires forall i :: 0 <= i < |cs| ==> !Same(r, cs[i].replacement)
    ensures RestoredRoute(r, cs) == r
    decreases |cs|
  {
    if cs != [] {
      RouteNotRestored(r, cs[..|cs| - 1]);
    }
  }

  // ----- flags -----

  lemma FlagOf(c: Conn)
    requires Formed(c)
    ensures AllBehind(c) ==> !c.isDefault && c.metric > DEFAULT_METRIC
    ensures AllAt(c, DEFAULT_METRIC) ==> c.isDefault && c.metric == DEFAULT_METRIC
  {
    var m := RouteState(c.routes, c.iface);
    assert c.routes[0].iface == c.iface;
  }

  // ----- the layout of the table under removal, undo and moving -----

  lemma LaidWithout(t: Table, host: Table, tracked: set<Route>, routes: seq<Route>)
    requires Laid(t, host, tracked) && StoredSet(routes) <= tracked
    ensures Laid(RemovedAll(t, routes), host, tracked - StoredSet(routes))
  {
    RemovedAllSlots(t, routes);
  }

  lemma LaidWith(t: Table, host: Table, tracked: set<Route>, routes: seq<Route>)
    requires Laid(t, host, tracked) && CanInsertAll(t, routes)
    ensures Laid(InsertedAll(t, routes), host, tracked + StoredSet(routes))
  {
    InsertedAllHolds(t, routes);
    var u := InsertedAll(t, routes);
    forall s | s in u ensures s in host || u[s] in tracked + StoredSet(routes) {
      if s !in t {
        assert s in Slots(routes);
        var i :| 0 <= i < |routes| && SlotOf(routes[i]) == s;
        assert u[s] == Stored(routes[i]);
      }
    }
    ProperWith(t, routes);
  }

  lemma {:induction false} ProperWith(t: Table, routes: seq<Route>)
    requires Proper(t) && CanInsertAll(t, routes)
    ensures Proper(InsertedAll(t, routes))
    decreases |routes|
  {
    if routes != [] {
      ProperWith(t, routes[..|routes| - 1]);
    }
  }

  /** What undoing does to the set of routes in the table. */
  lemma UndoneRoutes(t: Table, cs: seq<Change>)
    requires Proper(t) && Distinct(cs)
    requires forall i :: 0 <= i < |cs| ==> Holds(t, cs[i].replacement) && SlotOf(cs[i].original) !in t
    ensures var u := UndoneAll(t, cs);
      && UndoSucceeds(t, cs) && Proper(u)
      && (forall s :: s in t && t[s] !in ReplacementSet(cs) ==> s in u && u[s] == t[s])
      && (forall r :: r in OriginalSet(cs) ==> SlotOf(r) in u && u[SlotOf(r)] == r)
      && (forall s :: s in u ==> u[s] in OriginalSet(cs) || (s in t && t[s] == u[s] && t[s] !in ReplacementSet(cs)))
  {
    UndoneAllSlots(t, cs);
    var u := UndoneAll(t, cs);
    forall s | s in Replacements(cs) ensures s in t && t[s] in ReplacementSet(cs) {
      var i :| 0 <= i < |cs| && SlotOf(cs[i].replacement) == s;
      assert Holds(t, cs[i].replacement);
    }
    forall r | r in OriginalSet(cs) ensures SlotOf(r) in u && u[SlotOf(r)] == r {
      var i :| 0 <= i < |cs| && r == Stored(cs[i].original);
      var s := SlotOf(r);
      assert s in Originals(cs) && u[s] in OriginalSet(cs);
      var j :| 0 <= j < |cs| && u[s] == Stored(cs[j].original);
      assert SlotOf(cs[j].original) == SlotOf(cs[i].original);
    }
  }

  /** What moving does to the set of routes in the table. */
  lemma MovedRoutes(t: Table, cs: seq<Change>)
    requires Planned(t, cs)
    ensures var u := MovedAll(t, cs);
      && Proper(u)
      && (forall s :: s in t && t[s] !in OriginalSet(cs) ==> s in u && u[s] == t[s])
      && (forall r :: r in ReplacementSet(cs) ==> SlotOf(r) in u && u[SlotOf(r)] == r && SlotOf(r) !in t)
      && (forall s :: s in u ==> u[s] in ReplacementSet(cs) || (s in t && t[s] == u[s] && t[s] !in OriginalSet(cs)))
  {
    MovedAllSlots(t, cs);
    var u := MovedAll(t, cs);
    forall s | s in Originals(cs) ensures s in t && t[s] in OriginalSet(cs) {
      var i :| 0 <= i < |cs| && SlotOf(cs[i].original) == s;
      assert Holds(t, cs[i].original);
    }
    forall r | r in OriginalSet(cs) ensures SlotOf(r) in Originals(cs) {
      var i :| 0 <= i < |cs| && r == Stored(cs[i].original);
    }
    forall r | r in ReplacementSet(cs) ensures SlotOf(r) in u && u[SlotOf(r)] == r && SlotOf(r) !in t {
      var i :| 0 <= i < |cs| && r == Stored(cs[i].replacement);
      var s := SlotOf(r);
      assert s in Replacements(cs) && u[s] in ReplacementSet(cs);
      var j :| 0 <= j < |cs| && u[s] == Stored(cs[j].replacement);
      assert SlotOf(cs[j].replacement) == SlotOf(cs[i].replacement);
    }
  }

  /** Undoing the top's changes when they moved a tracked connection. */
  lemma LaidRestored(t: Table, host: Table, tracked: set<Route>, cs: seq<Change>)
    requires Laid(t, host, tracked) && Distinct(cs) && ReplacementSet(cs) <= tracked
    requires forall i :: 0 <= i < |cs| ==> SlotOf(cs[i].original) !in t
    ensures UndoSucceeds(t, cs) && Laid(UndoneAll(t, cs), host, tracked - ReplacementSet(cs) + OriginalSet(cs))
  {
    forall i | 0 <= i < |cs| ensures Holds(t, cs[i].replacement) {
      assert Stored(cs[i].replacement) in ReplacementSet(cs);
    }
    UndoneRoutes(t, cs);
    forall r | r in OriginalSet(cs) ensures SlotOf(r) !in host {
      var i :| 0 <= i < |cs| && r == Stored(cs[i].original);
    }
  }

  /** Undoing the only takeover's changes: the host's routes are back. */
  lemma LaidHostRestored(t: Table, base: Table, families: seq<int>, tracked: set<Route>, cs: seq<Change>)
    requires Displaced(base, families, cs) && Laid(t, MovedAll(base, cs), tracked)
    requires forall r :: r in tracked ==> !InFamilies(SlotOf(r), families)
    ensures UndoSucceeds(t, cs) && Laid(UndoneAll(t, cs), base, tracked)
  {
    MovedRoutes(base, cs);
    forall i | 0 <= i < |cs| ensures Holds(t, cs[i].replacement) && SlotOf(cs[i].original) !in t {
      assert Stored(cs[i].replacement) in ReplacementSet(cs);
      var s := SlotOf(cs[i].original);
      assert s in base && s in Originals(cs) && InFamilies(s, families);
      assert base[s] in OriginalSet(cs);
    }
    UndoneRoutes(t, cs);
    forall r | r in OriginalSet(cs) ensures SlotOf(r) in base && base[SlotOf(r)] == r {
      var i :| 0 <= i < |cs| && r == Stored(cs[i].original);
      assert Holds(base, cs[i].original);
    }
    forall r | r in ReplacementSet(cs) ensures SlotOf(r) !in base {
    }
    forall s | s in base ensures s in UndoneAll(t, cs) && UndoneAll(t, cs)[s] == base[s] {
    }
  }

  /** A takeover that moves a tracked connection. */
  lemma LaidMoved(t: Table, host: Table, tracked: set<Route>, cs: seq<Change>)
    requires Laid(t, host, tracked) && Planned(t, cs) && OriginalSet(cs) <= tracked
    ensures Laid(MovedAll(t, cs), host, tracked - OriginalSet(cs) + ReplacementSet(cs))
  {
    MovedRoutes(t, cs);
  }

  /** A takeover that moves host routes. */
  lemma LaidHostMoved(t: Table, base: Table, tracked: set<Route>, cs: seq<Change>)
    requires Laid(t, base, tracked) && Proper(base) && Planned(t, cs) && OriginalSet(cs) !! tracked
    ensures Planned(base, cs) && Laid(MovedAll(t, cs), MovedAll(base, cs), tracked)
  {
    forall i | 0 <= i < |cs| ensures Holds(base, cs[i].original) {
      assert Holds(t, cs[i].original) && Stored(cs[i].original) in OriginalSet(cs);
    }
    MovedRoutes(t, cs);
    MovedRoutes(base, cs);
  }

  // ----- the set of tracked routes -----

  lemma OwnRoutes(c: Conn)
    requires Formed(c)
    ensures forall r :: r in StoredSet(c.routes) ==> r.iface == c.iface
  {
  }

  lemma OwnFamilies(c: Conn, families: seq<int>)
    requires Shaped(c, families)
    ensures forall r :: r in StoredSet(c.routes) ==> r.family in families
  {
  }

  /** No other connection has a route of this one. */
  ghost predicate Apart(conns: map<string, Conn>, id: string)
    requires id in conns
  {
    forall x :: x in conns && x != id ==> StoredSet(conns[x].routes) !! StoredSet(conns[id].routes)
  }

  lemma FormedApart(conns: map<string, Conn>, id: string)
    requires AllFormed(conns) && id in conns
    ensures Apart(conns, id)
  {
    forall x | x in conns && x != id ensures StoredSet(conns[x].routes) !! StoredSet(conns[id].routes) {
      OwnRoutes(conns[x]);
      OwnRoutes(conns[id]);
    }
  }

  lemma TrackedWithout(conns: map<string, Conn>, id: string)
    requires id in conns && Apart(conns, id)
    ensures Tracked(conns - {id}) == Tracked(conns) - StoredSet(conns[id].routes)
    ensures StoredSet(conns[id].routes) <= Tracked(conns)
  {
    var rest := conns - {id};
    forall r | r in Tracked(rest) ensures r in Tracked(conns) && r !in StoredSet(conns[id].routes) {
      var x :| x in rest && r in StoredSet(rest[x].routes);
      assert x in conns && rest[x] == conns[x];
    }
    forall r | r in Tracked(conns) && r !in StoredSet(conns[id].routes) ensures r in Tracked(rest) {
      var x :| x in conns && r in StoredSet(conns[x].routes);
      assert x in rest && rest[x] == conns[x];
    }
  }

  lemma TrackedWith(conns: map<string, Conn>, id: string, c: Conn)
    requires id !in conns
    ensures Tracked(conns[id := c]) == Tracked(conns) + StoredSet(c.routes)
  {
    var u := conns[id := c];
    forall r | r in Tracked(conns) ensures r in Tracked(u) {
      var x :| x in conns && r in StoredSet(conns[x].routes);
      assert x in u && u[x] == conns[x];
    }
    forall r | r in StoredSet(c.routes) ensures r in Tracked(u) {
      assert id in u && u[id] == c;
    }
  }

  lemma TrackedReplaced(conns: map<string, Conn>, id: string, c: Conn)
    requires id in conns && Apart(conns, id)
    ensures Tracked(conns[id := c]) == Tracked(conns) - StoredSet(conns[id].routes) + StoredSet(c.routes)
  {
    TrackedWithout(conns, id);
    TrackedWith(conns - {id}, id, c);
    assert conns[id := c] == (conns - {id})[id := c];
  }

  lemma TrackedSame(conns: map<string, Conn>, others: map<string, Conn>)
    requires conns.Keys == others.Keys
    requires forall id :: id in conns ==> others[id].routes == conns[id].routes
    ensures Tracked(conns) == Tracked(others)
  {
    forall r | r in Tracked(conns) ensures r in Tracked(others) {
      var x :| x in conns && r in StoredSet(conns[x].routes);
      assert x in others;
    }
    forall r | r in Tracked(others) ensures r in Tracked(conns) {
      var x :| x in others && r in StoredSet(others[x].routes);
      assert x in conns;
    }
  }

  // ----- connections through demotion and restoration -----

  /** Changes of stored routes from at most the default metric to beyond it. */
  ghost predicate Lowering(cs: seq<Change>) {
    && Distinct(cs)
    && forall i :: 0 <= i < |cs| ==>
      && cs[i].replacement == cs[i].original.(metric := cs[i].replacement.metric) && cs[i].original.protocol != 0
      && cs[i].original.metric <= DEFAULT_METRIC < cs[i].replacement.metric
  }

  lemma UntouchedByDemotion(c: Conn, cs: seq<Change>)
    requires StoredSet(c.routes) !! OriginalSet(cs)
    ensures DemotedConn(c, cs) == c
  {
    var routes := DemotedRoutes(c.routes, cs);
    forall i | 0 <= i < |c.routes| ensures routes[i] == c.routes[i] {
      assert Stored(c.routes[i]) in StoredSet(c.routes);
      forall j | 0 <= j < |cs| ensures !Same(c.routes[i], cs[j].original) {
        assert Stored(cs[j].original) in OriginalSet(cs);
      }
      RouteNotDemoted(c.routes[i], cs);
    }
  }

  lemma UntouchedByRestoration(c: Conn, cs: seq<Change>)
    requires StoredSet(c.routes) !! ReplacementSet(cs)
    ensures RestoredConn(c, cs) == c
  {
    var routes := RestoredRoutes(c.routes, cs);
    forall i | 0 <= i < |c.routes| ensures routes[i] == c.routes[i] {
      assert Stored(c.routes[i]) in StoredSet(c.routes);
      forall j | 0 <= j < |cs| ensures !Same(c.routes[i], cs[j].replacement) {
        assert Stored(cs[j].replacement) in ReplacementSet(cs);
      }
      RouteNotRestored(c.routes[i], cs);
    }
  }

  ghost predicate Pairs(r: Route, d: Route, cs: seq<Change>) {
    exists j :: 0 <= j < |cs| && Same(r, cs[j].original) && d == cs[j].replacement
  }

  lemma RoutesDemoted(rs: seq<Route>, cs: seq<Change>)
    requires Lowering(cs) && OriginalSet(cs) == StoredSet(rs)
    ensures forall i :: 0 <= i < |rs| ==> Pairs(rs[i], DemotedRoutes(rs, cs)[i], cs)
    ensures StoredSet(DemotedRoutes(rs, cs)) == ReplacementSet(cs)
  {
    var ds := DemotedRoutes(rs, cs);
    forall i | 0 <= i < |rs| ensures Pairs(rs[i], ds[i], cs) {
      assert Stored(rs[i]) in OriginalSet(cs);
      var j :| 0 <= j < |cs| && Stored(rs[i]) == Stored(cs[j].original);
      RouteDemoted(rs[i], cs, j);
    }
    forall j | 0 <= j < |cs| ensures Stored(cs[j].replacement) in StoredSet(ds) {
      assert Stored(cs[j].original) in StoredSet(rs);
      var i :| 0 <= i < |rs| && Stored(rs[i]) == Stored(cs[j].original);
      RouteDemoted(rs[i], cs, j);
      assert Stored(ds[i]) == Stored(cs[j].replacement);
    }
  }

  lemma RoutesRestored(rs: seq<Route>, cs: seq<Change>)
    requires Lowering(cs) && ReplacementSet(cs) == StoredSet(rs)
    ensures forall i :: 0 <= i < |rs| ==> Pairs(RestoredRoutes(rs, cs)[i], Stored(rs[i]), cs)
    ensures StoredSet(RestoredRoutes(rs, cs)) == OriginalSet(cs)
  {
    var ds := RestoredRoutes(rs, cs);
    forall i | 0 <= i < |rs| ensures Pairs(ds[i], Stored(rs[i]), cs) {
      assert Stored(rs[i]) in ReplacementSet(cs);
      var j :| 0 <= j < |cs| && Stored(rs[i]) == Stored(cs[j].replacement);
      RouteRestored(rs[i], cs, j);
      assert Stored(cs[j].replacement) == cs[j].replacement;
    }
    forall j | 0 <= j < |cs| ensures Stored(cs[j].original) in StoredSet(ds) {
      assert Stored(cs[j].replacement) in StoredSet(rs);
      var i :| 0 <= i < |rs| && Stored(rs[i]) == Stored(cs[j].replacement);
      RouteRestored(rs[i], cs, j);
      assert Stored(ds[i]) == Stored(cs[j].original);
    }
  }

  /** Other metrics on the same interface and families leave a connection in shape. */
  lemma Reshaped(c: Conn, families: seq<int>, routes: seq<Route>)
    requires Shaped(c, families) && |routes| == |c.routes|
    requires forall i :: 0 <= i < |routes| ==>
      routes[i].iface == c.routes[i].iface && routes[i].family == c.routes[i].family
    ensures Shaped(Rerouted(c, routes), families)
  {
  }

  /** Demoting all of a connection's routes puts it behind, linked to the change list. */
  lemma TopDemoted(c: Conn, families: seq<int>, cs: seq<Change>)
    requires Shaped(c, families) && AllAt(c, DEFAULT_METRIC) && Lowering(cs) && OriginalSet(cs) == StoredSet(c.routes)
    ensures var d := DemotedConn(c, cs);
      && Shaped(d, families) && AllBehind(d) && d.iface == c.iface && d.changes == c.changes
      && StoredSet(d.routes) == ReplacementSet(cs)
      && Linked(d, cs)
  {
    RoutesDemoted(c.routes, cs);
    Reshaped(c, families, DemotedRoutes(c.routes, cs));
    forall j | 0 <= j < |cs| ensures cs[j].original.metric == DEFAULT_METRIC {
      assert Stored(cs[j].original) in StoredSet(c.routes);
    }
  }

  /** Undoing that change list brings the connection back to the default metric. */
  lemma BelowRestored(c: Conn, families: seq<int>, cs: seq<Change>)
    requires Shaped(c, families) && AllBehind(c) && Linked(c, cs)
    ensures var d := RestoredConn(c, cs);
      && Shaped(d, families) && AllAt(d, DEFAULT_METRIC) && d.iface == c.iface && d.changes == c.changes
      && StoredSet(d.routes) == OriginalSet(cs)
  {
    LinkedLowers(c, cs);
    RoutesRestored(c.routes, cs);
    Reshaped(c, families, RestoredRoutes(c.routes, cs));
  }

  lemma LinkedLowers(c: Conn, cs: seq<Change>)
    requires AllBehind(c) && Linked(c, cs)
    ensures Lowering(cs)
  {
    forall i | 0 <= i < |cs| ensures DEFAULT_METRIC < cs[i].replacement.metric {
      assert Stored(cs[i].replacement) in StoredSet(c.routes);
    }
  }
  // ----- inheritance -----

  /** If every change is about the removed connection, its changes are taken over whole and once. */
  lemma {:induction false} InheritsAll(cs: seq<Change>, removed: Conn, inherited: bool)
    requires forall i :: 0 <= i < |cs| ==> Exists(cs[i].replacement, removed.routes)
    ensures InheritedFrom(cs, removed, inherited) == if cs == [] || inherited then [] else removed.changes
  {
    if cs != [] {
      InheritsAll(cs[1..], removed, true);
    }
  }

  lemma InheritsWhole(cs: seq<Change>, removed: Conn)
    requires removed.routes != [] && ReplacementSet(cs) == StoredSet(removed.routes)
    ensures Inherits(cs, removed) && InheritedFrom(cs, removed, false) == removed.changes
  {
    forall i | 0 <= i < |cs| ensures Exists(cs[i].replacement, removed.routes) {
      assert Stored(cs[i].replacement) in StoredSet(removed.routes);
      var j :| 0 <= j < |removed.routes| && Stored(removed.routes[j]) == Stored(cs[i].replacement);
      assert Same(cs[i].replacement, removed.routes[j]);
    }
    assert Stored(removed.routes[0]) in ReplacementSet(cs);
    InheritsAll(cs, removed, false);
  }

  lemma InheritsNothing(cs: seq<Change>, removed: Conn)
    requires ReplacementSet(cs) !! StoredSet(removed.routes)
    ensures !Inherits(cs, removed)
  {
    forall i | 0 <= i < |cs| ensures !Exists(cs[i].replacement, removed.routes) {
      assert Stored(cs[i].replacement) in ReplacementSet(cs);
      forall j | 0 <= j < |removed.routes| ensures !Same(cs[i].replacement, removed.routes[j]) {
        assert Stored(removed.routes[j]) in StoredSet(removed.routes);
      }
    }
  }

  /** The connection directly above id on the stack. */
  ghost predicate IsHeir(stack: seq<string>, id: string, x: string) {
    exists k :: 0 < k < |stack| && stack[k] == x && stack[k - 1] == id
  }

  lemma HostReplacements(t: Table, base: Table, families: seq<int>, cs: seq<Change>, tracked: set<Route>)
    requires Displaced(base, families, cs) && Laid(t, MovedAll(base, cs), tracked)
    ensures ReplacementSet(cs) !! tracked
  {
    MovedRoutes(base, cs);
  }

  lemma HeirAt(stack: seq<string>, k: nat, id: string)
    requires NoRepeats(stack) && k < |stack|
    ensures IsHeir(stack, id, stack[k]) <==> k > 0 && stack[k - 1] == id
  {
  }

  /** The first of the stack moved host routes, so it inherits from nobody. */
  lemma FirstInherits(s: State, base: Table, families: seq<int>, stack: seq<string>, id: string)
    requires Inv(s, base, families, stack) && id in s.conns && stack != []
    ensures !Inherits(s.conns[stack[0]].changes, s.conns[id])
  {
    FormedApart(s.conns, id);
    TrackedWithout(s.conns, id);
    HostReplacements(s.table, base, families, s.conns[stack[0]].changes, Tracked(s.conns));
    InheritsNothing(s.conns[stack[0]].changes, s.conns[id]);
  }

  /** A connection whose changes moved the one below inherits from that one only, and everything. */
  lemma LinkedInherits(conns: map<string, Conn>, below: string, cs: seq<Change>, id: string)
    requires AllFormed(conns) && id in conns && below in conns && Linked(conns[below], cs)
    ensures Inherits(cs, conns[id]) <==> below == id
    ensures below == id ==> InheritedFrom(cs, conns[id], false) == conns[id].changes
  {
    if below == id {
      InheritsWhole(cs, conns[id]);
    } else {
      FormedApart(conns, id);
      InheritsNothing(cs, conns[id]);
    }
  }

  /** Only the connection directly above a removed one inherits, and it inherits everything. */
  lemma OnlyHeirInherits(s: State, base: Table, families: seq<int>, stack: seq<string>, id: string, x: string)
    requires Inv(s, base, families, stack) && id in s.conns && x in s.conns && x != id
    ensures Inherits(s.conns[x].changes, s.conns[id]) <==> IsHeir(stack, id, x)
    ensures HeirOf(s.conns[x], s.conns[id]) ==
            if IsHeir(stack, id, x) then s.conns[x].(changes := s.conns[id].changes) else s.conns[x]
  {
    if x in stack {
      var k :| 0 <= k < |stack| && stack[k] == x;
      HeirAt(stack, k, id);
      if k == 0 {
        FirstInherits(s, base, families, stack, id);
      } else {
        assert Linked(s.conns[stack[k - 1]], s.conns[stack[k]].changes);
        LinkedInherits(s.conns, stack[k - 1], s.conns[x].changes, id);
      }
    }
  }

  // ----- removing a connection that is not the top of the stack -----

  ghost function Splice(stack: seq<string>, k: nat): seq<string>
    requires k < |stack|
  {
    stack[..k] + stack[k + 1..]
  }

  lemma SpliceAt(stack: seq<string>, k: nat)
    requires k + 1 < |stack|
    ensures |Splice(stack, k)| == |stack| - 1
    ensures forall j :: 0 <= j < |stack| - 1 ==> Splice(stack, k)[j] == if j < k then stack[j] else stack[j + 1]
  {
  }

  lemma SpliceMembers(stack: seq<string>, k: nat)
    requires k + 1 < |stack| && NoRepeats(stack)
    ensures NoRepeats(Splice(stack, k))
    ensures forall x :: x in Splice(stack, k) <==> x in stack && x != stack[k]
    ensures forall x :: IsTop(Splice(stack, k), x) <==> IsTop(stack, x)
  {
    SpliceAt(stack, k);
    forall x | x in stack && x != stack[k] ensures x in Splice(stack, k) {
      var j :| 0 <= j < |stack| && stack[j] == x;
      assert Splice(stack, k)[if j < k then j else j - 1] == x;
    }
  }

  ghost predicate SameButHeir(conns: map<string, Conn>, u: map<string, Conn>, heir: string, cs: seq<Change>) {
    forall x :: x in u ==>
      x in conns && u[x].routes == conns[x].routes && u[x].changes == if x == heir then cs else conns[x].changes
  }

  lemma BequeathedStack(conns: map<string, Conn>, u: map<string, Conn>, stack: seq<string>, k: nat)
    requires Stacked(conns, stack) && k + 1 < |stack| && u.Keys == conns.Keys - {stack[k]}
    requires SameButHeir(conns, u, stack[k + 1], conns[stack[k]].changes)
    ensures Stacked(u, Splice(stack, k))
  {
    SpliceMembers(stack, k);
  }

  lemma BequeathedLinks(conns: map<string, Conn>, u: map<string, Conn>, stack: seq<string>, k: nat)
    requires k + 1 < |stack|
    requires NoRepeats(stack) && forall x :: x in stack ==> x in conns && (x != stack[k] ==> x in u)
    requires AllLinked(conns, stack) && SameButHeir(conns, u, stack[k + 1], conns[stack[k]].changes)
    ensures forall x :: x in Splice(stack, k) ==> x in u
    ensures AllLinked(u, Splice(stack, k))
    ensures u[Splice(stack, k)[0]].changes == conns[stack[0]].changes
  {
    SpliceAt(stack, k);
    SpliceMembers(stack, k);
    var spliced := Splice(stack, k);
    forall j | 0 < j < |spliced| ensures Linked(u[spliced[j - 1]], u[spliced[j]].changes) {
      var below, above := spliced[j - 1], spliced[j];
      if j < k {
        assert Linked(conns[stack[j - 1]], conns[stack[j]].changes);
      } else if j == k {
        assert Linked(conns[stack[k - 1]], conns[stack[k]].changes);
      } else {
        assert Linked(conns[stack[j]], conns[stack[j + 1]].changes);
      }
    }
  }

  /** After the removal every other connection is as before, except that the heir has the removed one's changes. */
  ghost predicate Bequeathed(conns: map<string, Conn>, stack: seq<string>, id: string, u: map<string, Conn>)
    requires id in conns
  {
    && u.Keys == conns.Keys - {id}
    && forall x :: x in u ==> u[x] == if IsHeir(stack, id, x) then conns[x].(changes := conns[id].changes) else conns[x]
  }

  lemma ConnsBequeathed(s: State, base: Table, families: seq<int>, stack: seq<string>, id: string)
    requires Inv(s, base, families, stack) && id in s.conns && !s.conns[id].isDefault
    ensures Bequeathed(s.conns, stack, id, ConnsWithout(s.conns, s.conns[id]) - {id})
  {
    forall x | x in s.conns && x != id
      ensures HeirOf(s.conns[x], s.conns[id]) ==
              if IsHeir(stack, id, x) then s.conns[x].(changes := s.conns[id].changes) else s.conns[x]
    {
      OnlyHeirInherits(s, base, families, stack, id, x);
    }
  }

  lemma FormedWith(c: Conn, cs: seq<Change>)
    requires Formed(c)
    ensures Formed(c.(changes := cs))
  {
  }

  lemma BequeathedShape(conns: map<string, Conn>, families: seq<int>, stack: seq<string>, id: string,
                        u: map<string, Conn>, rest: seq<string>)
    requires AllFormed(conns) && StackShaped(conns, families, stack) && id in conns && Bequeathed(conns, stack, id, u)
    requires forall x :: x in rest ==> x in stack && x in u
    ensures AllFormed(u) && StackShaped(u, families, rest)
  {
    forall x | x in u ensures Formed(u[x]) && u[x].iface == conns[x].iface {
      FormedWith(conns[x], conns[id].changes);
    }
  }

  ghost predicate OnlyHeir(conns: map<string, Conn>, stack: seq<string>, id: string)
    requires id in conns
  {
    forall x :: x in conns && x != id ==> (Inherits(conns[x].changes, conns[id]) <==> IsHeir(stack, id, x))
  }

  lemma RecordBequeathed(s: State, stack: seq<string>, id: string, u: State, x: string)
    requires DistinctIfaces(s.conns) && Journalled(s.journal, s.conns) && id in s.conns && !s.conns[id].isDefault
    requires OnlyHeir(s.conns, stack, id) && Bequeathed(s.conns, stack, id, u.conns) && x in u.conns
    requires u.conns[x] == HeirOf(s.conns[x], s.conns[id])
    requires JournalWithout(s, s.conns[id], u.journal)
    ensures Recorded(u.journal, x, u.conns[x])
  {
    var removed := s.conns[id];
    assert Recorded(s.journal, x, s.conns[x]);
    if IsHeir(stack, id, x) {
      assert Rewrites(s.conns, x, removed);
    } else {
      assert EqualAt(u.journal, s.journal - {removed.iface}, s.conns[x].iface);
    }
  }

  lemma StillNamed(conns: map<string, Conn>, stack: seq<string>, id: string, u: map<string, Conn>, name: string)
    requires DistinctIfaces(conns) && id in conns && Bequeathed(conns, stack, id, u)
    requires Names(conns, name) && name != conns[id].iface
    ensures Names(u, name)
  {
    var x :| x in conns && conns[x].iface == name;
    assert x in u && u[x].iface == name;
  }

  lemma NameBequeathed(s: State, stack: seq<string>, id: string, u: State, name: string)
    requires DistinctIfaces(s.conns) && id in s.conns && !s.conns[id].isDefault
    requires forall n :: n in s.journal ==> Names(s.conns, n)
    requires Bequeathed(s.conns, stack, id, u.conns) && JournalWithout(s, s.conns[id], u.journal) && name in u.journal
    ensures Names(u.conns, name)
  {
    var removed := s.conns[id];
    if x :| Rewrites(s.conns, x, removed) && s.conns[x].iface == name {
      assert x in u.conns && u.conns[x].iface == name;
    } else {
      assert EqualAt(u.journal, s.journal - {removed.iface}, name);
      StillNamed(s.conns, stack, id, u.conns, name);
    }
  }

  lemma JournalBequeathed(s: State, stack: seq<string>, id: string, u: State)
    requires DistinctIfaces(s.conns) && Journalled(s.journal, s.conns) && id in s.conns && !s.conns[id].isDefault
    requires OnlyHeir(s.conns, stack, id) && Bequeathed(s.conns, stack, id, u.conns)
    requires u.conns == ConnsWithout(s.conns, s.conns[id]) - {id}
    requires JournalWithout(s, s.conns[id], u.journal)
    ensures Journalled(u.journal, u.conns)
  {
    forall x | x in u.conns ensures Recorded(u.journal, x, u.conns[x]) {
      RecordBequeathed(s, stack, id, u, x);
    }
    forall name | name in u.journal ensures Names(u.conns, name) {
      NameBequeathed(s, stack, id, u, name);
    }
  }

  lemma HeirIsNext(stack: seq<string>, k: nat)
    requires NoRepeats(stack) && k + 1 < |stack|
    ensures forall x :: IsHeir(stack, stack[k], x) <==> x == stack[k + 1]
  {
    assert IsHeir(stack, stack[k], stack[k + 1]);
  }

  lemma NestWithout(conns: map<string, Conn>, base: Table, families: seq<int>, stack: seq<string>, id: string,
                    u: map<string, Conn>)
    returns (rest: seq<string>)
    requires Nested(conns, base, families, stack) && id in conns && !IsTop(stack, id)
    requires Bequeathed(conns, stack, id, u)
    ensures Nested(u, base, families, rest) && Host(base, u, rest) == Host(base, conns, stack)
  {
    rest := StackWithout(conns, stack, id, u);
    BequeathedShape(conns, families, stack, id, u, rest);
    SameBottom(conns, base, families, stack, u, rest);
  }

  lemma SameBottom(conns: map<string, Conn>, base: Table, families: seq<int>, stack: seq<string>,
                   u: map<string, Conn>, rest: seq<string>)
    requires Nested(conns, base, families, stack)
    requires AllFormed(u) && StackShaped(u, families, rest) && Stacked(u, rest) && AllLinked(u, rest)
    requires (rest == []) == (stack == []) && (rest != [] ==> u[rest[0]].changes == conns[stack[0]].changes)
    ensures Nested(u, base, families, rest) && Host(base, u, rest) == Host(base, conns, stack)
  {
  }

  /** The stack closes over the gap. */
  lemma StackWithout(conns: map<string, Conn>, stack: seq<string>, id: string, u: map<string, Conn>)
    returns (rest: seq<string>)
    requires Stacked(conns, stack) && AllLinked(conns, stack) && id in conns && !IsTop(stack, id)
    requires Bequeathed(conns, stack, id, u)
    ensures Stacked(u, rest) && AllLinked(u, rest) && forall x :: x in rest ==> x in stack
    ensures (rest == []) == (stack == []) && (rest != [] ==> u[rest[0]].changes == conns[stack[0]].changes)
  {
    if id in stack {
      var k :| 0 <= k < |stack| && stack[k] == id;
      rest := Splice(stack, k);
      SplicedNest(conns, stack, k, u);
    } else {
      rest := stack;
      SameNest(conns, stack, id, u);
    }
  }

  lemma SplicedNest(conns: map<string, Conn>, stack: seq<string>, k: nat, u: map<string, Conn>)
    requires Stacked(conns, stack) && AllLinked(conns, stack) && k + 1 < |stack|
    requires Bequeathed(conns, stack, stack[k], u)
    ensures Splice(stack, k) != [] && Stacked(u, Splice(stack, k)) && AllLinked(u, Splice(stack, k))
    ensures u[Splice(stack, k)[0]].changes == conns[stack[0]].changes
    ensures forall x :: x in Splice(stack, k) ==> x in stack
  {
    HeirIsNext(stack, k);
    SpliceMembers(stack, k);
    assert SameButHeir(conns, u, stack[k + 1], conns[stack[k]].changes);
    BequeathedStack(conns, u, stack, k);
    BequeathedLinks(conns, u, stack, k);
    SpliceAt(stack, k);
  }

  lemma SameNest(conns: map<string, Conn>, stack: seq<string>, id: string, u: map<string, Conn>)
    requires Stacked(conns, stack) && AllLinked(conns, stack) && id in conns && id !in stack
    requires Bequeathed(conns, stack, id, u)
    ensures u == conns - {id} && Stacked(u, stack) && AllLinked(u, stack)
  {
  }

  /** Removing a connection that is not the top keeps the invariant; the rest of the stack keeps its order. */
  lemma RemovedBehind(s: State, base: Table, families: seq<int>, stack: seq<string>, id: string, u: State)
    returns (rest: seq<string>)
    requires Inv(s, base, families, stack) && id in s.conns && !IsTop(stack, id) && Disconnects(s, id, u)
    ensures Inv(u, base, families, rest)
  {
    FlagOf(s.conns[id]);
    ConnsBequeathed(s, base, families, stack, id);
    rest := NestWithout(s.conns, base, families, stack, id, u.conns);
    RemovedBehindJournal(s, base, families, stack, id, u);
    RemovedBehindTable(s.conns, stack, id, u.conns, s.table, Host(base, s.conns, stack));
  }

  lemma RemovedBehindJournal(s: State, base: Table, families: seq<int>, stack: seq<string>, id: string, u: State)
    requires Inv(s, base, families, stack) && id in s.conns && !s.conns[id].isDefault && Disconnects(s, id, u)
    requires Bequeathed(s.conns, stack, id, u.conns)
    ensures Journalled(u.journal, u.conns)
  {
    forall x | x in s.conns && x != id ensures Inherits(s.conns[x].changes, s.conns[id]) <==> IsHeir(stack, id, x) {
      OnlyHeirInherits(s, base, families, stack, id, x);
    }
    JournalBequeathed(s, stack, id, u);
  }

  lemma RemovedBehindTable(conns: map<string, Conn>, stack: seq<string>, id: string, u: map<string, Conn>, t: Table,
                           host: Table)
    requires AllFormed(conns) && id in conns && Bequeathed(conns, stack, id, u)
    requires Laid(t, host, Tracked(conns))
    ensures Laid(RemovedAll(t, conns[id].routes), host, Tracked(u))
  {
    FormedApart(conns, id);
    TrackedWithout(conns, id);
    TrackedSame(conns - {id}, u);
    LaidWithout(t, host, Tracked(conns), conns[id].routes);
  }

  // ----- removing the top of the stack -----

  lemma BehindTracked(conns: map<string, Conn>, families: seq<int>)
    requires forall id :: id in conns ==> AllBehind(conns[id])
    ensures forall r :: r in Tracked(conns) ==> !InFamilies(SlotOf(r), families)
  {
    forall r | r in Tracked(conns) ensures r.metric > DEFAULT_METRIC {
      var id :| id in conns && r in StoredSet(conns[id].routes);
      var i :| 0 <= i < |conns[id].routes| && r == Stored(conns[id].routes[i]);
    }
  }

  lemma HostBehind(base: Table, families: seq<int>, cs: seq<Change>)
    requires Displaced(base, families, cs)
    ensures forall s :: s in MovedAll(base, cs) ==> !InFamilies(s, families)
  {
    MovedAllSlots(base, cs);
    forall s | s in Replacements(cs) ensures s.metric > DEFAULT_METRIC {
      var i :| 0 <= i < |cs| && s == SlotOf(cs[i].replacement);
    }
  }

  /** Where the top's changes moved host routes, no connection notices the undo. */
  lemma NobodyRestored(conns: map<string, Conn>, t: Table, base: Table, families: seq<int>, cs: seq<Change>)
    requires Displaced(base, families, cs) && Laid(t, MovedAll(base, cs), Tracked(conns))
    ensures forall x :: x in conns ==> RestoredConn(conns[x], cs) == conns[x]
  {
    HostReplacements(t, base, families, cs, Tracked(conns));
    forall x | x in conns ensures RestoredConn(conns[x], cs) == conns[x] {
      forall r | r in StoredSet(conns[x].routes) ensures r in Tracked(conns) {
      }
      UntouchedByRestoration(conns[x], cs);
    }
  }

  /** Where they moved the connection below, only that one does. */
  lemma OnlyBelowRestored(conns: map<string, Conn>, below: string, cs: seq<Change>)
    requires AllFormed(conns) && below in conns && Linked(conns[below], cs)
    ensures forall x :: x in conns && x != below ==> RestoredConn(conns[x], cs) == conns[x]
  {
    FormedApart(conns, below);
    forall x | x in conns && x != below ensures RestoredConn(conns[x], cs) == conns[x] {
      UntouchedByRestoration(conns[x], cs);
    }
  }

  lemma LastRemoved(s: State, base: Table, families: seq<int>, id: string)
    requires Inv(s, base, families, [id])
    ensures Inv(Popped(s, id, s.conns - {id}), base, families, [])
  {
    LastTableRemoved(s.conns, base, families, id, s.table);
    LastNest(s.conns, base, families, id);
    JournalWithoutTop(s.journal, s.conns, id, s.conns - {id});
  }

  lemma LastConns(s: State, base: Table, families: seq<int>, id: string)
    requires Inv(s, base, families, [id])
    ensures AllRestored(s.conns, s.conns[id].changes) - {id} == s.conns - {id}
  {
    NobodyRestored(s.conns, s.table, base, families, s.conns[id].changes);
  }

  lemma LastNest(conns: map<string, Conn>, base: Table, families: seq<int>, id: string)
    requires Nested(conns, base, families, [id]) && id in conns
    ensures Nested(conns - {id}, base, families, [])
  {
  }

  lemma JournalWithoutTop(journal: map<string, Entry>, conns: map<string, Conn>, id: string, u: map<string, Conn>)
    requires DistinctIfaces(conns) && Journalled(journal, conns) && id in conns && u.Keys == conns.Keys - {id}
    requires forall x :: x in u ==> u[x].iface == conns[x].iface && u[x].changes == conns[x].changes
    ensures Journalled(journal - {conns[id].iface}, u)
  {
    var kept := journal - {conns[id].iface};
    forall x | x in u ensures Recorded(kept, x, u[x]) {
      assert Recorded(journal, x, conns[x]);
    }
    forall name | name in kept ensures Names(u, name) {
      var x :| x in conns && conns[x].iface == name;
      assert x in u;
    }
  }

  /** The state after the top has been taken off, with the given connections left. */
  ghost function Popped(s: State, id: string, rest: map<string, Conn>): State
    requires id in s.conns
  {
    var c := s.conns[id];
    State(UndoneAll(RemovedAll(s.table, c.routes), c.changes), s.journal - {c.iface}, rest)
  }

  lemma PoppedState(s: State, id: string, u: State)
    requires id in s.conns && s.conns[id].isDefault && Disconnects(s, id, u)
    ensures u == Popped(s, id, AllRestored(s.conns, s.conns[id].changes) - {id})
  {
    var rest := AllRestored(s.conns, s.conns[id].changes) - {id};
    assert u.conns == rest;
  }

  lemma LastTableRemoved(conns: map<string, Conn>, base: Table, families: seq<int>, id: string, t: Table)
    requires Nested(conns, base, families, [id]) && id in conns
    requires Laid(t, Host(base, conns, [id]), Tracked(conns))
    ensures Laid(UndoneAll(RemovedAll(t, conns[id].routes), conns[id].changes), base, Tracked(conns - {id}))
    ensures UndoSucceeds(RemovedAll(t, conns[id].routes), conns[id].changes)
  {
    var rest := conns - {id};
    FormedApart(conns, id);
    TrackedWithout(conns, id);
    LaidWithout(t, Host(base, conns, [id]), Tracked(conns), conns[id].routes);
    BehindTracked(rest, families);
    LaidHostRestored(RemovedAll(t, conns[id].routes), base, families, Tracked(rest), conns[id].changes);
  }

  ghost function Uncovered(conns: map<string, Conn>, id: string, below: string): map<string, Conn>
    requires id in conns && below in conns
  {
    (conns - {id})[below := RestoredConn(conns[below], conns[id].changes)]
  }

  lemma UncoveredTable(conns: map<string, Conn>, base: Table, families: seq<int>, stack: seq<string>, t: Table)
    requires Nested(conns, base, families, stack) && |stack| > 1
    requires Laid(t, Host(base, conns, stack), Tracked(conns))
    ensures var id, below := stack[|stack| - 1], stack[|stack| - 2];
      && Laid(UndoneAll(RemovedAll(t, conns[id].routes), conns[id].changes), Host(base, conns, stack),
        Tracked(Uncovered(conns, id, below)))
      && UndoSucceeds(RemovedAll(t, conns[id].routes), conns[id].changes)
  {
    var id, below := stack[|stack| - 1], stack[|stack| - 2];
    assert IsTop(stack, id) && below in stack && Linked(conns[below], conns[id].changes);
    HostBehind(base, families, conns[stack[0]].changes);
    UncoveredLaid(conns, families, id, below, t, Host(base, conns, stack));
  }

  lemma UncoveredLaid(conns: map<string, Conn>, families: seq<int>, id: string, below: string, t: Table, host: Table)
    requires AllFormed(conns) && id in conns && below in conns && id != below
    requires Shaped(conns[below], families) && Linked(conns[below], conns[id].changes)
    requires forall x :: x in conns && x != id ==> AllBehind(conns[x])
    requires Laid(t, host, Tracked(conns)) && forall s :: s in host ==> !InFamilies(s, families)
    ensures UndoSucceeds(RemovedAll(t, conns[id].routes), conns[id].changes)
    ensures Laid(UndoneAll(RemovedAll(t, conns[id].routes), conns[id].changes), host,
      Tracked(Uncovered(conns, id, below)))
  {
    var rest, cs, t1 := conns - {id}, conns[id].changes, RemovedAll(t, conns[id].routes);
    FormedApart(conns, id);
    TrackedWithout(conns, id);
    LaidWithout(t, host, Tracked(conns), conns[id].routes);
    BehindTracked(rest, families);
    OriginalsFree(conns[below], families, cs, t1);
    FormedApart(rest, below);
    TrackedWithout(rest, below);
    BelowRestored(conns[below], families, cs);
    TrackedReplaced(rest, below, RestoredConn(conns[below], cs));
    LaidRestored(t1, host, Tracked(rest), cs);
  }

  lemma OriginalsFree(below: Conn, families: seq<int>, cs: seq<Change>, t: Table)
    requires Shaped(below, families) && Linked(below, cs)
    requires forall s :: s in t ==> !InFamilies(s, families)
    ensures forall i :: 0 <= i < |cs| ==> SlotOf(cs[i].original) !in t
  {
    OwnFamilies(below, families);
    forall i | 0 <= i < |cs| ensures SlotOf(cs[i].original) !in t {
      assert Stored(cs[i].replacement) in StoredSet(below.routes);
      assert InFamilies(SlotOf(cs[i].original), families);
    }
  }

  lemma UncoveredConns(conns: map<string, Conn>, id: string, below: string)
    requires id in conns && below in conns && id != below
    requires forall x :: x in conns && x != below ==> RestoredConn(conns[x], conns[id].changes) == conns[x]
    ensures AllRestored(conns, conns[id].changes) - {id} == Uncovered(conns, id, below)
  {
    var u := AllRestored(conns, conns[id].changes) - {id};
    assert u.Keys == Uncovered(conns, id, below).Keys;
  }

  lemma UncoveredShape(conns: map<string, Conn>, families: seq<int>, id: string, below: string)
    requires AllFormed(conns) && id in conns && below in conns && id != below && Shaped(conns[below], families)
    requires AllBehind(conns[below]) && Linked(conns[below], conns[id].changes)
    ensures var u := Uncovered(conns, id, below);
      && AllFormed(u) && Shaped(u[below], families) && AllAt(u[below], DEFAULT_METRIC)
      && forall x :: x in u ==> u[x].iface == conns[x].iface && u[x].changes == conns[x].changes
  {
    BelowRestored(conns[below], families, conns[id].changes);
  }

  lemma UncoveredShapes(conns: map<string, Conn>, families: seq<int>, stack: seq<string>)
    requires AllFormed(conns) && StackShaped(conns, families, stack)
    requires Stacked(conns, stack) && AllLinked(conns, stack) && |stack| > 1
    ensures var id, below := stack[|stack| - 1], stack[|stack| - 2];
      && AllFormed(Uncovered(conns, id, below)) &&
        StackShaped(Uncovered(conns, id, below), families, stack[..|stack| - 1])
      && AllAt(Uncovered(conns, id, below)[below], DEFAULT_METRIC)
  {
    var id, below := stack[|stack| - 1], stack[|stack| - 2];
    assert below in stack && Linked(conns[below], conns[id].changes);
    UncoveredShape(conns, families, id, below);
    UncoveredKeeps(conns, id, below);
    UncoveredStackShape(conns, families, stack, Uncovered(conns, id, below));
  }

  lemma UncoveredStackShape(conns: map<string, Conn>, families: seq<int>, stack: seq<string>, u: map<string, Conn>)
    requires StackShaped(conns, families, stack) && NoRepeats(stack) && |stack| > 1
    requires u.Keys == conns.Keys - {stack[|stack| - 1]}
    requires forall x :: x in u && x != stack[|stack| - 2] ==> u[x] == conns[x]
    requires Shaped(u[stack[|stack| - 2]], families)
    ensures StackShaped(u, families, stack[..|stack| - 1])
  {
    PopMembers(stack);
  }

  lemma PopMembers(stack: seq<string>)
    requires |stack| > 1 && NoRepeats(stack)
    ensures var rest := stack[..|stack| - 1];
      && NoRepeats(rest)
      && (forall x :: x in rest <==> x in stack && !IsTop(stack, x))
      && (forall x :: IsTop(rest, x) <==> x == stack[|stack| - 2])
  {
    var rest := stack[..|stack| - 1];
    forall x | x in stack && !IsTop(stack, x) ensures x in rest {
      var k :| 0 <= k < |stack| && stack[k] == x;
      assert rest[k] == x;
    }
  }

  lemma UncoveredStack(conns: map<string, Conn>, stack: seq<string>, u: map<string, Conn>)
    requires Stacked(conns, stack) && |stack| > 1
    requires u.Keys == conns.Keys - {stack[|stack| - 1]}
    requires forall x :: x in u ==> u[x].changes == conns[x].changes && (x != stack[|stack| - 2] ==> u[x] == conns[x])
    requires AllAt(u[stack[|stack| - 2]], DEFAULT_METRIC)
    ensures Stacked(u, stack[..|stack| - 1])
  {
    PopMembers(stack);
  }

  lemma UncoveredLinks(conns: map<string, Conn>, stack: seq<string>, u: map<string, Conn>)
    requires NoRepeats(stack) && |stack| > 1
    requires forall x :: x in stack ==> x in conns && (!IsTop(stack, x) ==> x in u)
    requires AllLinked(conns, stack)
    requires forall x :: x in u ==>
      x in conns && u[x].changes == conns[x].changes && (x != stack[|stack| - 2] ==> u[x] == conns[x])
    ensures forall x :: x in stack[..|stack| - 1] ==> x in u
    ensures AllLinked(u, stack[..|stack| - 1])
  {
    var rest := stack[..|stack| - 1];
    PopMembers(stack);
    forall k | 0 < k < |rest| ensures Linked(u[rest[k - 1]], u[rest[k]].changes) {
      assert Linked(conns[stack[k - 1]], conns[stack[k]].changes);
      assert rest[k - 1] != stack[|stack| - 2];
    }
  }

  lemma UncoveredKeeps(conns: map<string, Conn>, id: string, below: string)
    requires id in conns && below in conns && id != below
    ensures var u := Uncovered(conns, id, below);
      && u.Keys == conns.Keys - {id}
      && forall x :: x in u ==> x in conns && u[x].changes == conns[x].changes && (x != below ==> u[x] == conns[x])
  {
  }

  lemma UncoveredNest(conns: map<string, Conn>, base: Table, families: seq<int>, stack: seq<string>)
    requires Nested(conns, base, families, stack) && |stack| > 1
    ensures var id, below, rest := stack[|stack| - 1], stack[|stack| - 2], stack[..|stack| - 1];
      && Nested(Uncovered(conns, id, below), base, families, rest)
      && Host(base, Uncovered(conns, id, below), rest) == Host(base, conns, stack)
  {
    var id, below, rest := stack[|stack| - 1], stack[|stack| - 2], stack[..|stack| - 1];
    var u := Uncovered(conns, id, below);
    UncoveredShapes(conns, families, stack);
    UncoveredKeeps(conns, id, below);
    UncoveredLinks(conns, stack, u);
    UncoveredStack(conns, stack, u);
    SameBottom(conns, base, families, stack, u, rest);
  }

  lemma TopRemoved(s: State, base: Table, families: seq<int>, stack: seq<string>)
    requires Inv(s, base, families, stack) && |stack| > 1
    ensures var id, below := stack[|stack| - 1], stack[|stack| - 2];
      Inv(Popped(s, id, Uncovered(s.conns, id, below)), base, families, stack[..|stack| - 1])
  {
    UncoveredNest(s.conns, base, families, stack);
    UncoveredTable(s.conns, base, families, stack, s.table);
    UncoveredJournal(s.conns, stack[|stack| - 1], stack[|stack| - 2], s.journal);
  }

  lemma UncoveredJournal(conns: map<string, Conn>, id: string, below: string, journal: map<string, Entry>)
    requires DistinctIfaces(conns) && Journalled(journal, conns) && id in conns && below in conns && id != below
    ensures Journalled(journal - {conns[id].iface}, Uncovered(conns, id, below))
  {
    JournalWithoutTop(journal, conns, id, Uncovered(conns, id, below));
  }

  lemma PopKeeps(s: State, base: Table, families: seq<int>, stack: seq<string>, id: string, u: State)
    requires Inv(s, base, families, stack) && id in s.conns && IsTop(stack, id) && Disconnects(s, id, u)
    ensures Inv(u, base, families, stack[..|stack| - 1])
  {
    FlagOf(s.conns[id]);
    PoppedState(s, id, u);
    if |stack| == 1 {
      assert stack == [id];
      LastConns(s, base, families, id);
      LastRemoved(s, base, families, id);
    } else {
      assert Linked(s.conns[stack[|stack| - 2]], s.conns[id].changes);
      OnlyBelowRestored(s.conns, stack[|stack| - 2], s.conns[id].changes);
      UncoveredConns(s.conns, id, stack[|stack| - 2]);
      TopRemoved(s, base, families, stack);
    }
  }

  /** Every disconnect keeps the invariant. */
  lemma DisconnectKeeps(s: State, base: Table, families: seq<int>, stack: seq<string>, id: string, u: State)
    returns (rest: seq<string>)
    requires Inv(s, base, families, stack) && Disconnects(s, id, u)
    ensures Inv(u, base, families, rest)
  {
    if id !in s.conns {
      rest := stack;
    } else if IsTop(stack, id) {
      PopKeeps(s, base, families, stack, id, u);
      rest := stack[..|stack| - 1];
    } else {
      rest := RemovedBehind(s, base, families, stack, id, u);
    }
  }

  /** Undoing the default connection's changes never finds a slot taken by a stranger. */
  lemma AlwaysUndoable(s: State, base: Table, families: seq<int>, stack: seq<string>, id: string)
    requires Inv(s, base, families, stack)
    ensures Undoable(s, id)
  {
    if id in s.conns && s.conns[id].isDefault {
      FlagOf(s.conns[id]);
      assert IsTop(stack, id);
      if |stack| == 1 {
        assert stack == [id];
        LastTableRemoved(s.conns, base, families, id, s.table);
      } else {
        UncoveredTable(s.conns, base, families, stack, s.table);
      }
    }
  }
}
