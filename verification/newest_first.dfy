/**
 Default connections let go newest first: whatever families they have and
 however many they are, each disconnect gives back the table and the journal
 of before the connect that it belongs to.
 */
module NewestFirst {
  import opened Routes
  import opened Undo
  import opened Demotion
  import opened Connections
  import opened Tracking
  import opened Bearers
  import opened TwoTakeovers

  // ----- connections that differ in form only -----

  /** The same but for protocols left unset, which read as static. */
  ghost predicate Alike(c: Conn, d: Conn) {
    && c.iface == d.iface && c.changes == d.changes && |c.routes| == |d.routes|
    && forall i :: 0 <= i < |c.routes| ==> Stored(c.routes[i]) == Stored(d.routes[i])
  }

  ghost predicate AllAlike(cs: map<string, Conn>, ds: map<string, Conn>) {
    cs.Keys == ds.Keys && forall x :: x in cs ==> Alike(cs[x], ds[x]) && Formed(cs[x])
  }

  lemma {:induction false} SameRouteState(rs: seq<Route>, qs: seq<Route>, iface: string)
    requires |rs| == |qs| && forall i :: 0 <= i < |rs| ==> Stored(rs[i]) == Stored(qs[i])
    ensures RouteState(rs, iface) == RouteState(qs, iface)
    decreases |rs|
  {
    if rs != [] {
      SameRouteState(rs[..|rs| - 1], qs[..|qs| - 1], iface);
    }
  }

  /** So flags and metrics are the same, and letting go does the same to the table. */
  lemma AlikeFlags(c: Conn, d: Conn)
    requires Alike(c, d) && Formed(c) && Formed(d)
    ensures c.metric == d.metric && c.isDefault == d.isDefault
  {
    SameRouteState(c.routes, d.routes, c.iface);
  }

  lemma AlikeRemoved(t: Table, c: Conn, d: Conn)
    requires Proper(t) && Alike(c, d)
    ensures RemovedAll(t, c.routes) == RemovedAll(t, d.routes)
  {
    assert StoredSet(c.routes) == StoredSet(d.routes);
    RemovedAllSlots(t, c.routes);
    RemovedAllSlots(t, d.routes);
    assert RemovedAll(t, c.routes).Keys == RemovedAll(t, d.routes).Keys;
  }

  // ----- states in which every tracked route is in the table -----

  ghost predicate AllHeld(t: Table, c: Conn) {
    forall i :: 0 <= i < |c.routes| ==> Holds(t, c.routes[i])
  }

  ghost predicate Settled(s: State) {
    Proper(s.table) && forall x :: x in s.conns ==> Formed(s.conns[x]) && AllHeld(s.table, s.conns[x])
  }

  // ----- one route there and back -----

  /** The changes of a takeover of the table. */
  ghost predicate Takes(t: Table, cs: seq<Change>) {
    Planned(t, cs) && Lowering(cs)
  }

  lemma RouteThereAndBack(t: Table, cs: seq<Change>, r: Route, back: Route)
    requires Takes(t, cs) && Holds(t, r) && Stored(back) == Stored(DemotedRoute(r, cs))
    ensures Stored(RestoredRoute(back, cs)) == Stored(r)
  {
    if j :| 0 <= j < |cs| && Same(r, cs[j].original) {
      RouteDemoted(r, cs, j);
      RouteRestored(back, cs, j);
    } else {
      RouteNotDemoted(r, cs);
      forall j | 0 <= j < |cs| ensures !Same(back, cs[j].replacement) {
        assert SlotOf(cs[j].replacement) !in t;
      }
      RouteNotRestored(back, cs);
    }
  }

  lemma DemotedIface(t: Table, cs: seq<Change>, r: Route)
    requires Takes(t, cs)
    ensures DemotedRoute(r, cs).iface == r.iface
  {
    if j :| 0 <= j < |cs| && Same(r, cs[j].original) {
      RouteDemoted(r, cs, j);
    } else {
      RouteNotDemoted(r, cs);
    }
  }

  lemma RestoredIface(cs: seq<Change>, r: Route)
    requires Lowering(cs)
    ensures RestoredRoute(r, cs).iface == r.iface
  {
    if j :| 0 <= j < |cs| && Same(r, cs[j].replacement) {
      RouteRestored(r, cs, j);
    } else {
      RouteNotRestored(r, cs);
    }
  }

  lemma FormedRerouted(c: Conn, routes: seq<Route>)
    requires Formed(c) && |routes| == |c.routes| && forall i :: 0 <= i < |routes| ==> routes[i].iface == c.iface
    ensures Formed(Rerouted(c, routes))
  {
  }

  lemma RoutesThereAndBack(t: Table, cs: seq<Change>, c: Conn, back: Conn, i: nat)
    requires Takes(t, cs) && AllHeld(t, c) && Formed(back) && Alike(back, DemotedConn(c, cs)) && i < |back.routes|
    ensures i < |c.routes| == |back.routes| && Stored(RestoredRoutes(back.routes, cs)[i]) == Stored(c.routes[i])
    ensures RestoredRoutes(back.routes, cs)[i].iface == back.iface
  {
    assert DemotedConn(c, cs).routes == DemotedRoutes(c.routes, cs);
    assert Holds(t, c.routes[i]);
    RouteThereAndBack(t, cs, c.routes[i], back.routes[i]);
    RestoredIface(cs, back.routes[i]);
  }

  lemma ConnThereAndBack(t: Table, cs: seq<Change>, c: Conn, back: Conn)
    requires Takes(t, cs) && AllHeld(t, c) && Formed(back) && Alike(back, DemotedConn(c, cs))
    ensures Alike(RestoredConn(back, cs), c) && Formed(RestoredConn(back, cs))
  {
    var routes := RestoredRoutes(back.routes, cs);
    forall i | 0 <= i < |routes|
      ensures i < |c.routes| == |routes| && Stored(routes[i]) == Stored(c.routes[i]) && routes[i].iface == back.iface
    {
      RoutesThereAndBack(t, cs, c, back, i);
    }
    FormedRerouted(back, routes);
    SameForm(back, c, cs, routes);
  }

  lemma SameForm(back: Conn, c: Conn, cs: seq<Change>, routes: seq<Route>)
    requires Alike(back, DemotedConn(c, cs)) && |routes| == |c.routes|
    requires forall i :: 0 <= i < |routes| ==> Stored(routes[i]) == Stored(c.routes[i])
    ensures Alike(Rerouted(back, routes), c)
  {
  }

  // ----- one connection there and back -----

  lemma Takeover(s: State, current: seq<Route>, b: Bearer)
    requires Proper(s.table) && Lists(current, s.table)
    ensures Takes(s.table, Changes(current, RoutesFor(b, DEFAULT_METRIC)))
  {
    var preferred := RoutesFor(b, DEFAULT_METRIC);
    var cs := Changes(current, preferred);
    ChangesArePlanned(s.table, current, preferred);
    forall i | 0 <= i < |cs| ensures cs[i].original.metric <= DEFAULT_METRIC < cs[i].replacement.metric {
      assert Demotes(cs[i]) && Competes(cs[i].original, preferred);
      var k :| 0 <= k < |preferred| && preferred[k].family == cs[i].original.family;
    }
  }

  lemma DemotedHeld(t: Table, cs: seq<Change>, routes: seq<Route>, u: Table, r: Route)
    requires Takes(t, cs) && TakenOver(t, cs, routes, u) && Holds(t, r)
    ensures Holds(u, DemotedRoute(r, cs))
  {
    if j :| 0 <= j < |cs| && Same(r, cs[j].original) {
      RouteDemoted(r, cs, j);
      assert Stored(cs[j].replacement) in ReplacementSet(cs);
    } else {
      RouteNotDemoted(r, cs);
      assert Stored(r) !in OriginalSet(cs);
    }
  }

  lemma DemotedSettles(t: Table, cs: seq<Change>, routes: seq<Route>, u: Table, c: Conn)
    requires Takes(t, cs) && TakenOver(t, cs, routes, u) && Formed(c) && AllHeld(t, c)
    ensures Formed(DemotedConn(c, cs)) && AllHeld(u, DemotedConn(c, cs))
  {
    var demoted := DemotedRoutes(c.routes, cs);
    forall i | 0 <= i < |demoted| ensures Holds(u, demoted[i]) && demoted[i].iface == c.iface {
      DemotedHeld(t, cs, routes, u, c.routes[i]);
      DemotedIface(t, cs, c.routes[i]);
    }
    FormedRerouted(c, demoted);
  }

  lemma NewSettles(t: Table, cs: seq<Change>, b: Bearer, u: Table)
    requires b.links != [] && TakenOver(t, cs, RoutesFor(b, DEFAULT_METRIC), u)
    ensures var c := Conn(b.iface, RoutesFor(b, DEFAULT_METRIC), DEFAULT_METRIC, true, cs); Formed(c) && AllHeld(u, c)
  {
    var routes := RoutesFor(b, DEFAULT_METRIC);
    assert routes[0].iface == b.iface;
    forall i | 0 <= i < |routes| ensures Holds(u, routes[i]) {
      assert Stored(routes[i]) in StoredSet(routes);
    }
  }

  /** What an accepted connect has done. */
  ghost predicate Climbed(s: State, id: string, b: Bearer, cs: seq<Change>, u: State) {
    && Takes(s.table, cs) && CanInsertAll(MovedAll(s.table, cs), RoutesFor(b, DEFAULT_METRIC))
    && u.table == InsertedAll(MovedAll(s.table, cs), RoutesFor(b, DEFAULT_METRIC))
    && u.journal - {b.iface} == s.journal
    && u.conns == AllDemoted(s.conns, cs)[id := Conn(b.iface, RoutesFor(b, DEFAULT_METRIC), DEFAULT_METRIC, true, cs)]
  }

  lemma ConnectClimbs(s: State, id: string, b: Bearer, u: State) returns (cs: seq<Change>)
    requires Settled(s) && id !in s.conns && b.links != [] && b.iface !in s.journal
    requires Connects(s, id, b, true, u) && id in u.conns
    ensures Climbed(s, id, b, cs, u)
  {
    var current :| Lists(current, s.table) && u == ConnectedAsDefault(s, id, b, current);
    cs := Changes(current, RoutesFor(b, DEFAULT_METRIC));
    Takeover(s, current, b);
    JournalBack(s.journal, b.iface, Entry(id, RoutesFor(b, DEFAULT_METRIC), cs));
  }

  lemma JournalBack(journal: map<string, Entry>, iface: string, e: Entry)
    requires iface !in journal
    ensures journal[iface := e] - {iface} == journal && journal - {iface} == journal
  {
  }

  lemma ClimbSettles(s: State, id: string, b: Bearer, cs: seq<Change>, u: State)
    requires Settled(s) && id !in s.conns && b.links != [] && Climbed(s, id, b, cs, u)
    ensures Settled(u)
  {
    var routes := RoutesFor(b, DEFAULT_METRIC);
    TakesOver(s.table, cs, routes);
    NewSettles(s.table, cs, b, u.table);
    forall x | x in s.conns
      ensures Formed(DemotedConn(s.conns[x], cs)) && AllHeld(u.table, DemotedConn(s.conns[x], cs))
    {
      DemotedSettles(s.table, cs, routes, u.table, s.conns[x]);
    }
  }

  /** v is u, but for the form of its connections. */
  ghost predicate Resembles(v: State, u: State) {
    v.table == u.table && v.journal == u.journal && AllAlike(v.conns, u.conns)
  }

  lemma TopGoes(s: State, id: string, b: Bearer, cs: seq<Change>, u: State, v: State)
    requires Settled(s) && id !in s.conns && b.links != [] && Climbed(s, id, b, cs, u) && Resembles(v, u)
    ensures v.conns[id].isDefault && v.conns[id].changes == cs && v.conns[id].iface == b.iface
    ensures UndoSucceeds(RemovedAll(v.table, v.conns[id].routes), cs)
    ensures UndoneAll(RemovedAll(v.table, v.conns[id].routes), cs) == s.table
  {
    var routes := RoutesFor(b, DEFAULT_METRIC);
    TakesOver(s.table, cs, routes);
    NewSettles(s.table, cs, b, u.table);
    AlikeFlags(v.conns[id], u.conns[id]);
    AlikeRemoved(u.table, v.conns[id], u.conns[id]);
    RolledBack(s.table, cs, routes);
  }

  ghost predicate BackAt(conns: map<string, Conn>, before: map<string, Conn>, cs: seq<Change>, x: string)
    requires x in before
  {
    x in conns && Alike(RestoredConn(conns[x], cs), before[x]) && Formed(RestoredConn(conns[x], cs))
  }

  lemma OtherBack(s: State, id: string, b: Bearer, cs: seq<Change>, u: State, v: State, x: string)
    requires Settled(s) && id !in s.conns && Climbed(s, id, b, cs, u) && Resembles(v, u) && x in s.conns
    ensures BackAt(v.conns, s.conns, cs, x)
  {
    assert x in u.conns && u.conns[x] == DemotedConn(s.conns[x], cs) && x in v.conns;
    ConnThereAndBack(s.table, cs, s.conns[x], v.conns[x]);
  }

  lemma ClimbedKeys(s: State, id: string, b: Bearer, cs: seq<Change>, u: State, v: State)
    requires Climbed(s, id, b, cs, u) && Resembles(v, u)
    ensures v.conns.Keys == s.conns.Keys + {id}
  {
    assert AllDemoted(s.conns, cs).Keys == s.conns.Keys;
  }

  lemma OthersBack(s: State, id: string, b: Bearer, cs: seq<Change>, u: State, v: State)
    requires Settled(s) && id !in s.conns && Climbed(s, id, b, cs, u) && Resembles(v, u)
    ensures AllAlike(AllRestored(v.conns, cs) - {id}, s.conns)
  {
    forall x | x in s.conns ensures BackAt(v.conns, s.conns, cs, x) {
      OtherBack(s, id, b, cs, u, v, x);
    }
    ClimbedKeys(s, id, b, cs, u, v);
    AllBack(v.conns, s.conns, id, cs);
  }

  lemma AllBack(conns: map<string, Conn>, before: map<string, Conn>, id: string, cs: seq<Change>)
    requires conns.Keys == before.Keys + {id} && id !in before
    requires forall x :: x in before ==> BackAt(conns, before, cs, x)
    ensures AllAlike(AllRestored(conns, cs) - {id}, before)
  {
    assert (AllRestored(conns, cs) - {id}).Keys == before.Keys;
  }

  /** Letting go of the newest connection undoes its connect. */
  lemma ThereAndBack(s: State, id: string, b: Bearer, u: State, v: State, w: State)
    requires Settled(s) && id !in s.conns && b.links != [] && b.iface !in s.journal
    requires Connects(s, id, b, true, u) && Resembles(v, u) && Disconnects(v, id, w)
    ensures Settled(u) && Resembles(w, s) && Undoable(v, id)
  {
    if id in u.conns {
      var cs := ConnectClimbs(s, id, b, u);
      ClimbSettles(s, id, b, cs, u);
      TopGoes(s, id, b, cs, u, v);
      OthersBack(s, id, b, cs, u, v);
    } else {
      var current :| Lists(current, s.table) && u == ConnectedAsDefault(s, id, b, current);
    }
  }

  // ----- any number of connections -----

  /** up is a run of default connects; down lets the same connections go, the newest first. */
  ghost predicate UpAndDown(ids: seq<string>, bearers: seq<Bearer>, up: seq<State>, down: seq<State>) {
    && |bearers| == |ids| && |up| == |down| == |ids| + 1
    && Settled(up[0]) && down[|ids|] == up[|ids|]
    && forall k :: 0 <= k < |ids| ==>
      && ids[k] !in up[k].conns && bearers[k].links != [] && bearers[k].iface !in up[k].journal
      && Connects(up[k], ids[k], bearers[k], true, up[k + 1])
      && Disconnects(down[k + 1], ids[k], down[k])
  }

  lemma {:induction false} UpSettles(ids: seq<string>, bearers: seq<Bearer>, up: seq<State>, down: seq<State>, k: nat)
    requires UpAndDown(ids, bearers, up, down) && k <= |ids|
    ensures Settled(up[k])
  {
    if k > 0 {
      UpSettles(ids, bearers, up, down, k - 1);
      ConnectSettles(up[k - 1], ids[k - 1], bearers[k - 1], up[k]);
    }
  }

  lemma ConnectSettles(s: State, id: string, b: Bearer, u: State)
    requires Settled(s) && id !in s.conns && b.links != [] && b.iface !in s.journal && Connects(s, id, b, true, u)
    ensures Settled(u)
  {
    if id in u.conns {
      var cs := ConnectClimbs(s, id, b, u);
      ClimbSettles(s, id, b, cs, u);
    }
  }

  lemma ResemblesItself(s: State)
    requires Settled(s)
    ensures Resembles(s, s)
  {
  }

  /** On the way down every table and every journal is the one of the way up, and no undo finds its slots taken. */
  lemma {:induction false} NewestFirstGivesBack(ids: seq<string>, bearers: seq<Bearer>, up: seq<State>,
                                                down: seq<State>, k: nat)
    requires UpAndDown(ids, bearers, up, down) && k <= |ids|
    ensures Resembles(down[k], up[k]) && (k > 0 ==> Undoable(down[k], ids[k - 1]))
    decreases |ids| - k
  {
    UpSettles(ids, bearers, up, down, k);
    if k == |ids| {
      ResemblesItself(up[k]);
    } else {
      NewestFirstGivesBack(ids, bearers, up, down, k + 1);
      ThereAndBack(up[k], ids[k], bearers[k], up[k + 1], down[k + 1], down[k]);
    }
    if k > 0 {
      UpSettles(ids, bearers, up, down, k - 1);
      ThereAndBack(up[k - 1], ids[k - 1], bearers[k - 1], up[k], down[k], down[k - 1]);
    }
  }
}
