/**
 Tracked connections and what connecting and disconnecting do to them, to the
 table and to the journal when no call fails. Class Connector runs these
 operations; module Runs proves what they keep.
 */
module Connections {
  import opened Options
  import opened Routes
  import opened Undo
  import opened Demotion

  datatype Conn = Conn(iface: string, routes: seq<Route>, metric: nat, isDefault: bool, changes: seq<Change>)

  datatype State = State(table: Table, journal: map<string, Entry>, conns: map<string, Conn>)

  // ----- the default flag -----

  /** The least metric among the interface's routes. */
  function RouteState(routes: seq<Route>, iface: string): (m: Option<nat>)
    ensures m.None? ==> forall i :: 0 <= i < |routes| ==> routes[i].iface != iface
    ensures m.Some? ==> exists i :: 0 <= i < |routes| && routes[i].iface == iface && routes[i].metric == m.value
    ensures m.Some? ==> forall i :: 0 <= i < |routes| && routes[i].iface == iface ==> m.value <= routes[i].metric
    decreases |routes|
  {
    if routes == [] then None else
      var n := |routes| - 1;
      var rest := RouteState(routes[..n], iface);
      if routes[n].iface == iface && (rest.None? || routes[n].metric < rest.value) then Some(routes[n].metric) else rest
  }

  function WithRoutes(c: Conn, routes: seq<Route>): Conn {
    match RouteState(routes, c.iface)
    case None => c.(routes := routes, metric := 0, isDefault := false)
    case Some(m) => c.(routes := routes, metric := m, isDefault := m <= DEFAULT_METRIC)
  }

  // ----- following demotions and restorations -----

  function DemotedRoute(r: Route, cs: seq<Change>): Route
    decreases |cs|
  {
    if cs == [] then r else
      var d := DemotedRoute(r, cs[..|cs| - 1]);
      if Same(d, cs[|cs| - 1].original) then cs[|cs| - 1].replacement else d
  }

  function RestoredRoute(r: Route, cs: seq<Change>): Route
    decreases |cs|
  {
    if cs == [] then r else
      RestoredRoute(if Same(r, cs[|cs| - 1].replacement) then cs[|cs| - 1].original else r, cs[..|cs| - 1])
  }

  function Rerouted(c: Conn, routes: seq<Route>): Conn {
    if routes == c.routes then c else WithRoutes(c, routes)
  }

  function DemotedRoutes(rs: seq<Route>, cs: seq<Change>): seq<Route> {
    seq(|rs|, i requires 0 <= i < |rs| => DemotedRoute(rs[i], cs))
  }

  function RestoredRoutes(rs: seq<Route>, cs: seq<Change>): seq<Route> {
    seq(|rs|, i requires 0 <= i < |rs| => RestoredRoute(rs[i], cs))
  }

  function DemotedConn(c: Conn, cs: seq<Change>): Conn {
    Rerouted(c, DemotedRoutes(c.routes, cs))
  }

  function RestoredConn(c: Conn, cs: seq<Change>): Conn {
    Rerouted(c, RestoredRoutes(c.routes, cs))
  }

  // ----- inheriting the changes of a removed connection -----

  function InheritedFrom(cs: seq<Change>, removed: Conn, inherited: bool): seq<Change> {
    if cs == [] then []
    else if Exists(cs[0].replacement, removed.routes) then
      (if inherited then [] else removed.changes) + InheritedFrom(cs[1..], removed, true)
    else [cs[0]] + InheritedFrom(cs[1..], removed, inherited)
  }

  predicate Inherits(cs: seq<Change>, removed: Conn) {
    exists i :: 0 <= i < |cs| && Exists(cs[i].replacement, removed.routes)
  }

  function HeirOf(owner: Conn, removed: Conn): Conn {
    if owner.iface != removed.iface && Inherits(owner.changes, removed)
    then owner.(changes := InheritedFrom(owner.changes, removed, false))
    else owner
  }

  // ----- disconnecting -----

  function TableWithout(t: Table, c: Conn): Table {
    var u := RemovedAll(t, c.routes);
    if c.isDefault then UndoneAll(u, c.changes) else u
  }

  function AllDemoted(conns: map<string, Conn>, cs: seq<Change>): map<string, Conn> {
    map id | id in conns :: DemotedConn(conns[id], cs)
  }

  /** Only the lists of routes have been demoted, not metric and flag. */
  function HalfDemoted(conns: map<string, Conn>, cs: seq<Change>): map<string, Conn> {
    map id | id in conns :: conns[id].(routes := DemotedConn(conns[id], cs).routes)
  }

  function AllRestored(conns: map<string, Conn>, cs: seq<Change>): map<string, Conn> {
    map id | id in conns :: RestoredConn(conns[id], cs)
  }

  function AllHeirs(conns: map<string, Conn>, removed: Conn): map<string, Conn> {
    map id | id in conns :: HeirOf(conns[id], removed)
  }

  function ConnsWithout(conns: map<string, Conn>, removed: Conn): map<string, Conn> {
    if removed.isDefault then AllRestored(conns, removed.changes) else AllHeirs(conns, removed)
  }

  ghost predicate Rewrites(conns: map<string, Conn>, id: string, removed: Conn) {
    id in conns && conns[id].iface != removed.iface && Inherits(conns[id].changes, removed)
  }

  /** The heir's entry is rewritten, or dropped when it inherits nothing; other entries stay. */
  ghost predicate JournalWithout(s: State, removed: Conn, journal: map<string, Entry>) {
    var kept := s.journal - {removed.iface};
    if removed.isDefault then journal == kept else
      && (forall id :: Rewrites(s.conns, id, removed) ==> EntryFor(journal, id, HeirOf(s.conns[id], removed)))
      && (forall name: string :: (forall id :: Rewrites(s.conns, id, removed) ==> s.conns[id].iface != name) ==>
            EqualAt(journal, kept, name))
  }

  /** The connection's journal entry: none without changes. */
  ghost predicate EntryFor(journal: map<string, Entry>, id: string, c: Conn) {
    if c.changes == [] then c.iface !in journal
    else c.iface in journal && journal[c.iface] == Entry(id, c.routes, c.changes)
  }

  ghost predicate EqualAt(a: map<string, Entry>, b: map<string, Entry>, name: string) {
    (name in a <==> name in b) && (name in a ==> a[name] == b[name])
  }

  ghost predicate Disconnects(s: State, id: string, u: State) {
    if id !in s.conns then u == s else
      && u.table == TableWithout(s.table, s.conns[id])
      && u.conns == ConnsWithout(s.conns, s.conns[id]) - {id}
      && JournalWithout(s, s.conns[id], u.journal)
  }

  /** Whatever the undo of a default connection needs free is free. */
  ghost predicate Undoable(s: State, id: string) {
    id in s.conns && s.conns[id].isDefault ==>
      UndoSucceeds(RemovedAll(s.table, s.conns[id].routes), s.conns[id].changes)
  }

  // ----- connecting -----

  datatype Link = Link(family: int, gateway: Addr, source: Addr)

  datatype Bearer = Bearer(iface: string, links: seq<Link>)

  function RoutesFor(b: Bearer, metric: nat): seq<Route> {
    seq(|b.links|, i requires 0 <= i < |b.links| =>
      Route(b.iface, b.links[i].family, 0, 0, b.links[i].gateway, b.links[i].source, metric))
  }

  /** The route a link asks for, as it is handed to the kernel. */
  ghost predicate IsLinkRoute(r: Route, iface: string, link: Link, metric: nat) {
    && r.iface == iface && r.family == link.family && r.metric == metric
    && r.gateway == link.gateway && r.source == link.source
    && r.protocol == 0 && r.scope == 0
  }

  /** The kernel has such a route in the slot of the link's family and the metric, reported as static. */
  ghost predicate HasLinkRoute(t: Table, iface: string, link: Link, metric: nat) {
    var slot := Slot(link.family, metric);
    slot in t && t[slot].protocol == 4 && IsLinkRoute(t[slot].(protocol := 0), iface, link, metric)
  }

  /** The connection has one route per link of the bearer, in the links' order, and the table has them all. */
  ghost predicate ServesBearer(t: Table, b: Bearer, c: Conn) {
    && c.iface == b.iface && |c.routes| == |b.links|
    && (forall i :: 0 <= i < |b.links| ==> IsLinkRoute(c.routes[i], b.iface, b.links[i], c.metric))
    && forall i :: 0 <= i < |b.links| ==> HasLinkRoute(t, b.iface, b.links[i], c.metric)
  }

  lemma NewRoutesServe(t: Table, b: Bearer, c: Conn)
    requires c.iface == b.iface && c.routes == RoutesFor(b, c.metric) && CanInsertAll(t, c.routes)
    ensures ServesBearer(InsertedAll(t, c.routes), b, c)
  {
    var u := InsertedAll(t, c.routes);
    InsertedAllHolds(t, c.routes);
    forall i | 0 <= i < |b.links| ensures HasLinkRoute(u, b.iface, b.links[i], c.metric) {
      assert Holds(u, c.routes[i]);
    }
  }

  /** A default-route connection over a state in which id is not tracked. */
  function ConnectedAsDefault(s: State, id: string, b: Bearer, current: seq<Route>): State {
    var preferred := RoutesFor(b, DEFAULT_METRIC);
    var cs := Changes(current, preferred);
    var moved := MovedAll(s.table, cs);
    if !CanInsertAll(moved, preferred) then s else
      State(InsertedAll(moved, preferred),
            if cs == [] then s.journal else s.journal[b.iface := Entry(id, preferred, cs)],
            AllDemoted(s.conns, cs)[id := Conn(b.iface, preferred, DEFAULT_METRIC, true, cs)])
  }

  /** A secondary connection takes the given metric. */
  function ConnectedAsSecondary(s: State, id: string, b: Bearer, metric: nat): State {
    var routes := RoutesFor(b, metric);
    if !CanInsertAll(s.table, routes) then s else
      State(InsertedAll(s.table, routes), s.journal, s.conns[id := Conn(b.iface, routes, metric, false, [])])
  }

  ghost predicate Connects(s: State, id: string, b: Bearer, asDefault: bool, u: State) {
    if b.links == [] then u == s
    else if asDefault then
      exists current :: Lists(current, s.table) && u == ConnectedAsDefault(s, id, b, current)
    else
      exists current, metric ::
        && Lists(current, s.table)
        && IsLeastFreeInAll(Slots(current), Families(RoutesFor(b, 0)), SECONDARY_METRIC, metric)
        && u == ConnectedAsSecondary(s, id, b, metric)
  }

  /**
   A connect that takes effect gives the modem a connection over the bearer's
   own addresses: at metric 10 if it is the default, from 9000 on if not.
   */
  lemma ConnectedServesBearer(s: State, id: string, b: Bearer, asDefault: bool, u: State)
    requires id !in s.conns && Connects(s, id, b, asDefault, u) && id in u.conns
    ensures ServesBearer(u.table, b, u.conns[id]) && u.conns[id].isDefault == asDefault
    ensures if asDefault then u.conns[id].metric == 10 else u.conns[id].metric >= 9000
  {
    if asDefault {
      var current :| Lists(current, s.table) && u == ConnectedAsDefault(s, id, b, current);
      var preferred := RoutesFor(b, DEFAULT_METRIC);
      NewRoutesServe(MovedAll(s.table, Changes(current, preferred)), b, u.conns[id]);
    } else {
      var current, metric :|
        && Lists(current, s.table)
        && IsLeastFreeInAll(Slots(current), Families(RoutesFor(b, 0)), SECONDARY_METRIC, metric)
        && u == ConnectedAsSecondary(s, id, b, metric);
      NewRoutesServe(s.table, b, u.conns[id]);
    }
  }
}
