/**
 A bearer that is already connected: what a new process adopts of it, what is
 cleaned up of one that nobody tracks, and when that undoes a takeover that an
 earlier process was stopped in.
 */
module Adoption {
  import opened Options
  import opened Routes
  import opened Undo
  import opened Demotion
  import opened Machines
  import opened Takeover
  import opened Connections
  import opened OwnerSync
  import opened Bearers

  /** What the modem says about its bearer. */
  datatype Found = NoBearer | Down(iface: string) | Up(bearer: Bearer)

  // ----- what is read back -----

  /** The least metric of the interface's routes in the table. */
  ghost predicate LeastOn(t: Table, iface: string, state: Option<nat>) {
    match state
    case None => forall s :: s in t ==> t[s].iface != iface
    case Some(v) =>
      && (exists s :: s in t && t[s].iface == iface && s.metric == v)
      && forall s :: s in t && t[s].iface == iface ==> v <= s.metric
  }

  lemma LeastOfListing(current: seq<Route>, t: Table, iface: string)
    requires Proper(t) && Lists(current, t)
    ensures LeastOn(t, iface, RouteState(current, iface))
  {
    ListedSlots(current, t);
    var state := RouteState(current, iface);
    forall s | s in t && t[s].iface == iface ensures state.Some? && state.value <= s.metric {
      var i :| 0 <= i < |current| && current[i] == t[s];
    }
    if state.Some? {
      var i :| 0 <= i < |current| && current[i].iface == iface && current[i].metric == state.value;
      assert t[SlotOf(current[i])] == current[i];
    }
  }

  /** A dump that fails reads like one without routes. */
  ghost predicate Read(reliable: bool, t: Table, iface: string, state: Option<nat>) {
    LeastOn(t, iface, state) || (!reliable && state == None)
  }

  method RouteStateForInterface(m: Machine, iface: string) returns (state: Option<nat>)
    requires Proper(m.table)
    ensures Read(m.reliable, m.table, iface, state)
  {
    var current, listed := m.DefaultRoutes();
    if !listed.Applied? {
      return None;
    }
    LeastOfListing(current, m.table, iface);
    state := RouteState(current, iface);
  }

  /** The changes of the interface's entry, unless it is another modem's. */
  function OwnChanges(journal: map<string, Entry>, id: string, iface: string): Option<seq<Change>> {
    if iface in journal && (journal[iface].modem == "" || journal[iface].modem == id) then Some(journal[iface].changes)
    else None
  }

  /** One route per link at the metric found, none if none was found. */
  function FoundRoutes(b: Bearer, state: Option<nat>): seq<Route> {
    match state
    case None => []
    case Some(v) => RoutesFor(b, v)
  }

  function FoundFlag(state: Option<nat>, fallback: bool): bool {
    match state
    case None => fallback
    case Some(v) => v <= DEFAULT_METRIC
  }

  function FoundMetric(state: Option<nat>): nat {
    match state
    case None => 0
    case Some(v) => v
  }

  // ----- adopting the bearer -----

  /** c is what the process makes of the bearer; a default one without an entry takes over again. */
  ghost predicate Adopts(s: Snapshot, id: string, b: Bearer, state: Option<nat>, flag: bool, c: Conn, u: Snapshot) {
    && c.iface == b.iface && c.routes == FoundRoutes(b, state) && c.metric == FoundMetric(state)
    && c.isDefault == FoundFlag(state, flag)
    && match OwnChanges(s.journal, id, b.iface)
       case Some(cs) => c.changes == cs && u == s
       case None => if c.isDefault then TakesOverAgain(s, id, c, u) else c.changes == [] && u == s
  }

  ghost predicate TakesOverAgain(s: Snapshot, id: string, c: Conn, u: Snapshot) {
    exists current ::
      && Lists(current, s.table)
      && c.changes == Changes(current, c.routes)
      && u.table == MovedAll(s.table, c.changes)
      && u.journal == if c.changes == [] then s.journal else s.journal[c.iface := Entry(id, c.routes, c.changes)]
  }

  /** first is what the preferences are taken from, state the rest. */
  method RecoverTrackedConnection(m: Machine, id: string, b: Bearer, fallback: bool)
    returns (c: Conn, ok: bool, ghost first: Option<nat>, ghost state: Option<nat>)
    requires Proper(m.table)
    modifies m
    ensures Proper(m.table) && old(m.trace) <= m.trace
    ensures Read(m.reliable, old(m.table), b.iface, first) && Read(m.reliable, old(m.table), b.iface, state)
    ensures ok ==> b.iface != "" && b.links != []
    ensures ok ==> Adopts(old(Snapshot(m.table, m.journal)), id, b, state, FoundFlag(first, fallback), c,
      Snapshot(m.table, m.journal))
    ensures m.reliable && b.iface != "" && b.links != [] ==>
      ok || (b.iface in old(m.journal) && OwnChanges(old(m.journal), id, b.iface) == None)
    ensures ok && b.iface in old(m.journal) && old(m.journal)[b.iface].modem in {"", id} ==>
      c.changes == old(m.journal)[b.iface].changes
    ensures c.iface == b.iface && if state.None? then c.routes == [] else
      && |c.routes| == |b.links| && c.isDefault == (state.value <= 10)
      && forall i :: 0 <= i < |b.links| ==> IsLinkRoute(c.routes[i], b.iface, b.links[i], state.value)
  {
    ghost var s := Snapshot(m.table, m.journal);
    var preferences := RouteStateForInterface(m, b.iface);
    var flag := FoundFlag(preferences, fallback);
    var found := RouteStateForInterface(m, b.iface);
    first, state := preferences, found;
    flag := FoundFlag(found, flag);
    c, ok := Conn(b.iface, FoundRoutes(b, found), FoundMetric(found), flag, []), false;
    var fault := m.Fails();
    if b.iface == "" || |b.links| == 0 || fault {
      return;
    }
    var own := OwnChanges(m.journal, id, b.iface);
    if own.Some? {
      c, ok := c.(changes := own.value), true;
    } else if flag {
      ghost var current;
      var changes;
      changes, ok, current := TakeoverDefaultRoutes(m, id, b.iface, c.routes);
      c := c.(changes := changes);
      if ok { assert Lists(current, s.table) && c.changes == Changes(current, c.routes); }
    } else {
      ok := true;
    }
  }

  /** A connection adopted as the default without an entry of its own has taken over: nothing competes with it. */
  lemma AdoptedDefaultLeads(s: Snapshot, id: string, b: Bearer, state: Option<nat>, flag: bool, c: Conn, u: Snapshot)
    requires Proper(s.table) && Adopts(s, id, b, state, flag, c, u) && c.isDefault
    requires b.iface in s.journal ==> s.journal[b.iface].modem !in {"", id}
    ensures forall slot :: slot in u.table ==> !Competes(u.table[slot], c.routes)
    ensures |u.table| == |s.table|
  {
    var current :|
      && Lists(current, s.table)
      && c.changes == Changes(current, c.routes)
      && u.table == MovedAll(s.table, c.changes);
    TakeoverSettles(s.table, current, c.routes);
  }

  // ----- cleaning up a bearer that nobody tracks -----

  /** The table after deleting the bearer's routes and undoing the entry's changes, whatever the flag. */
  function CleanedUp(s: Snapshot, id: string, b: Bearer, state: Option<nat>): Table {
    if b.links == [] then s.table else
      UndoneAll(RemovedAll(s.table, FoundRoutes(b, state)), OwnChanges(s.journal, id, b.iface).Get([]))
  }

  method CleanupBearer(m: Machine, id: string, b: Bearer) returns (ok: bool, ghost state: Option<nat>)
    requires Proper(m.table)
    modifies m
    ensures Proper(m.table) && Read(m.reliable, old(m.table), b.iface, state)
    ensures m.journal - {b.iface} == old(m.journal) - {b.iface}
    ensures ok ==> m.table == CleanedUp(old(Snapshot(m.table, m.journal)), id, b, state)
    ensures var cs := OwnChanges(old(m.journal), id, b.iface).Get([]);
      m.reliable && UndoSucceeds(RemovedAll(old(m.table), FoundRoutes(b, state)), cs) ==> ok
    ensures b.links == [] ==> ok && m.table == old(m.table) && m.journal == old(m.journal)
  {
    var found := RouteStateForInterface(m, b.iface);
    state := found;
    if |b.links| == 0 {
      return true, state;
    }
    var fault := m.Fails();
    if fault {
      return false, state;
    }
    var changes := OwnChanges(m.journal, id, b.iface).Get([]);
    ghost var stuck;
    ok, stuck := CleanupApplied(m, b.iface, FoundRoutes(b, found), changes, Entry("", [], []),
      Origin(m.table, m.journal, ""));
  }

  // ----- after a stop -----

  /**
   The state of a process stopped in a takeover for this bearer, whose
   interface the host does not use; the entry is the one it wrote.
   */
  ghost predicate StoppedFor(s: Snapshot, b: Bearer, o: Origin) {
    && Covered(s, b.iface, o) && b.links != [] && o.modem != ""
    && (forall slot :: slot in o.table ==> o.table[slot].iface != b.iface)
    && (b.iface in s.journal ==>
          s.journal[b.iface].preferred == RoutesFor(b, DEFAULT_METRIC) && Steady(s.journal[b.iface].changes))
  }

  /** One of the bearer's default routes is already there. */
  ghost predicate AnyAdded(t: Table, b: Bearer) {
    exists i :: 0 <= i < |b.links| && Holds(t, RoutesFor(b, DEFAULT_METRIC)[i])
  }

  lemma OnlyAddedOnIface(s: Snapshot, b: Bearer, o: Origin, slot: Slot)
    requires StoppedFor(s, b, o) && slot in s.table && s.table[slot].iface == b.iface
    ensures slot.metric == DEFAULT_METRIC && AnyAdded(s.table, b)
  {
    var r, entry := s.table[slot], s.journal[b.iface];
    forall i | 0 <= i < |entry.changes| ensures entry.changes[i].replacement.iface != b.iface {
      assert Holds(o.table, entry.changes[i].original);
    }
    assert r in StoredSet(entry.preferred);
    var i :| 0 <= i < |entry.preferred| && r == Stored(entry.preferred[i]);
    assert Holds(s.table, RoutesFor(b, DEFAULT_METRIC)[i]);
  }

  lemma FoundAfterStop(s: Snapshot, b: Bearer, o: Origin, state: Option<nat>)
    requires StoppedFor(s, b, o) && LeastOn(s.table, b.iface, state)
    ensures state == if AnyAdded(s.table, b) then Some(DEFAULT_METRIC) else None
  {
    forall slot | slot in s.table && s.table[slot].iface == b.iface
      ensures slot.metric == DEFAULT_METRIC && AnyAdded(s.table, b)
    {
      OnlyAddedOnIface(s, b, o, slot);
    }
    if i :| 0 <= i < |b.links| && Holds(s.table, RoutesFor(b, DEFAULT_METRIC)[i]) {
      assert s.table[SlotOf(RoutesFor(b, DEFAULT_METRIC)[i])].iface == b.iface;
    }
  }

  lemma NoneToRemove(t: Table, b: Bearer)
    requires Proper(t) && !AnyAdded(t, b)
    ensures RemovedAll(t, RoutesFor(b, DEFAULT_METRIC)) == t
  {
    var routes := RoutesFor(b, DEFAULT_METRIC);
    RemovedAllSlots(t, routes);
    forall s | s in t ensures t[s] !in StoredSet(routes) {
      forall i | 0 <= i < |routes| ensures t[s] != Stored(routes[i]) {
        assert !Holds(t, routes[i]);
      }
    }
    assert RemovedAll(t, routes).Keys == t.Keys;
  }

  /** Deleting the routes found and undoing the entry's changes gives back the table before the takeover. */
  lemma CleanedUpAfterStop(s: Snapshot, b: Bearer, o: Origin, state: Option<nat>)
    requires StoppedFor(s, b, o) && LeastOn(s.table, b.iface, state)
    ensures CleanedUp(s, o.modem, b, state) == o.table
    ensures UndoSucceeds(RemovedAll(s.table, FoundRoutes(b, state)), OwnChanges(s.journal, o.modem, b.iface).Get([]))
  {
    FoundAfterStop(s, b, o, state);
    if b.iface in s.journal {
      var entry := s.journal[b.iface];
      if !AnyAdded(s.table, b) { NoneToRemove(s.table, b); }
      RecoveryRestores(s.table, o.table, entry);
    } else {
      OnlyHost(s, b, o);
    }
  }

  lemma OnlyHost(s: Snapshot, b: Bearer, o: Origin)
    requires StoppedFor(s, b, o) && b.iface !in s.journal
    ensures !AnyAdded(s.table, b)
  {
    forall i | 0 <= i < |b.links| ensures !Holds(s.table, RoutesFor(b, DEFAULT_METRIC)[i]) {
      assert Stored(RoutesFor(b, DEFAULT_METRIC)[i]).iface == b.iface;
    }
  }

  /** The preferences ask for a default route, or nothing had been moved, or one of the bearer's routes was there. */
  ghost predicate Survives(t: Table, b: Bearer, base: Table, fallback: bool) {
    fallback || t == base || AnyAdded(t, b)
  }

  lemma {:induction false} NothingCompetesWithNothing(rest: seq<Route>, used: set<Slot>)
    ensures ChangesFrom(rest, [], used) == []
  {
    if rest != [] { NothingCompetesWithNothing(rest[1..], used); }
  }

  /** Adopting changes nothing yet: the entry is there, or there is nothing to take over. */
  lemma AdoptingIsQuiet(s: Snapshot, b: Bearer, o: Origin, first: Option<nat>, state: Option<nat>, fallback: bool,
                        c: Conn, u: Snapshot)
    requires StoppedFor(s, b, o) && LeastOn(s.table, b.iface, first) && LeastOn(s.table, b.iface, state)
    requires Adopts(s, o.modem, b, state, FoundFlag(first, fallback), c, u)
    ensures u == s && Tidy(c) && c.changes == OwnChanges(s.journal, o.modem, b.iface).Get([])
  {
    FoundAfterStop(s, b, o, state);
    if b.iface !in s.journal {
      OnlyHost(s, b, o);
      if c.isDefault {
        var current :| Lists(current, s.table) && c.changes == Changes(current, c.routes) &&
          u.table == MovedAll(s.table, c.changes);
        NothingCompetesWithNothing(current, Slots(current));
      }
    }
    if c.routes != [] {
      assert c.routes[0].iface == c.iface;
      var m := RouteState(c.routes, c.iface);
    }
  }

  /**
   Letting the adopted connection go gives back the table before the stopped
   takeover, exactly if the preferences ask for a default route, nothing had
   been moved yet, or one of the bearer's own routes was already there.
   */
  lemma AdoptedComesBackExactlyIf(s: Snapshot, b: Bearer, o: Origin, first: Option<nat>, state: Option<nat>,
                                  fallback: bool, c: Conn, u: Snapshot)
    requires StoppedFor(s, b, o) && LeastOn(s.table, b.iface, first) && LeastOn(s.table, b.iface, state)
    requires Adopts(s, o.modem, b, state, FoundFlag(first, fallback), c, u)
    ensures TableWithout(s.table, c) == o.table <==> Survives(s.table, b, o.table, fallback)
    ensures c.isDefault ==> UndoSucceeds(RemovedAll(s.table, c.routes), c.changes)
  {
    FoundAfterStop(s, b, o, first);
    FoundAfterStop(s, b, o, state);
    AdoptingIsQuiet(s, b, o, first, state, fallback, c, u);
    CleanedUpAfterStop(s, b, o, state);
  }
}
