/** The connector: tracked connections over the machine, changed by connect and disconnect. */
module Connectors {
  import opened Options
  import opened Routes
  import opened Undo
  import opened Demotion
  import opened Machines
  import opened Takeover
  import opened Recovery
  import opened Connections
  import opened Tracking
  import opened OwnerSync
  import opened Bearers
  import opened Adoption

  /** Every journal entry belongs to the tracked connection on its interface. */
  ghost predicate Owned(journal: map<string, Entry>, conns: map<string, Conn>) {
    forall name :: name in journal ==> OwnedBy(journal[name], name, conns)
  }

  ghost predicate OwnedBy(e: Entry, name: string, conns: map<string, Conn>) {
    e.modem in conns && conns[e.modem].iface == name && e.modem != ""
  }

  class Connector {
    const m: Machine
    var connections: map<string, Conn>

    /** Nothing is tracked at first; the journal may hold what a stopped process left behind. */
    constructor (m: Machine)
      ensures this.m == m && connections == map[]
      ensures Proper(m.table) && m.journal == map[] ==> Valid()
    {
      this.m := m;
      connections := map[];
    }

    ghost function Now(): State
      reads this, m
    {
      State(m.table, m.journal, connections)
    }

    ghost predicate Valid()
      reads this, m
    {
      Proper(m.table) && AllTidy(connections) && Owned(m.journal, connections) && "" !in connections
    }

    /**
     Valid but for what a stopped or failed takeover of the untracked modem on
     the interface has left behind; base is the table before it.
     */
    ghost predicate Stopped(id: string, iface: string, base: Table)
      reads this, m
    {
      && Proper(m.table) && AllTidy(connections) && "" !in connections
      && id != "" && id !in connections && Owned(m.journal - {iface}, connections)
      && Covered(Snapshot(m.table, m.journal), iface, Origin(base, m.journal - {iface}, id))
    }

    /** Whether a stop is covered all the way is decided by the table alone, unless a route could not be deleted. */
    method CleanupTracked(c: Conn, ghost entry: Entry, ghost o: Origin) returns (ok: bool, ghost stuck: bool)
      requires Proper(m.table)
      modifies m
      ensures Proper(m.table) && (m.journal == old(m.journal) || m.journal == old(m.journal) - {c.iface})
      ensures ok ==> m.table == TableWithout(old(m.table), c) && m.journal == old(m.journal) - {c.iface}
      ensures m.reliable && (c.isDefault ==> UndoSucceeds(RemovedAll(old(m.table), c.routes), c.changes)) ==> ok
      ensures old(m.trace) <= m.trace && (stuck ==> !ok && !m.reliable)
      ensures var changes := if c.isDefault then c.changes else [];
        old(Backed(Snapshot(m.table, m.journal), c.iface, entry, o, c.routes, changes)) ==>
        && CoveredUnlessLost(m, |old(m.trace)|, c.iface, o)
        && (!stuck && TableWithout(old(m.table), c) == o.table ==> Good(m, |old(m.trace)|, CoveredBy(c.iface, o)))
    {
      var changes := if c.isDefault then c.changes else [];
      ok, stuck := CleanupApplied(m, c.iface, c.routes, changes, entry, o);
      if ok {
        ok := DropEntry(m, c.iface, entry, o, |old(m.trace)|);
      }
    }

    /** Rewrites or drops the heirs' entries; what it has done so far is in the journal even if it fails. */
    method RewriteEntries(affected: map<string, Conn>) returns (ok: bool)
      requires DistinctIfaces(affected)
      modifies m
      ensures m.table == old(m.table) && OnlyFrom(affected.Keys, old(m.journal), m.journal) && old(m.trace) <= m.trace
      ensures ok ==> Rewritten(affected, old(m.journal), m.journal)
      ensures m.reliable ==> ok
    {
      var done: map<string, Conn>, left := map[], affected.Keys;
      while left != {}
        invariant left <= affected.Keys && done.Keys == affected.Keys - left
        invariant forall x :: x in done ==> done[x] == affected[x]
        invariant m.table == old(m.table) && OnlyFrom(affected.Keys, old(m.journal), m.journal) &&
          old(m.trace) <= m.trace
        invariant Rewritten(done, old(m.journal), m.journal)
      {
        var x :| x in left;
        var c := affected[x];
        ghost var before := m.journal;
        var o: Outcome;
        if |c.changes| > 0 {
          o := m.PutRouteState(c.iface, Entry(x, c.routes, c.changes));
        } else {
          o := m.DeleteRouteState(c.iface);
        }
        if !o.Applied? {
          return false;
        }
        RewrittenOne(done, old(m.journal), before, x, c, m.journal);
        left, done := left - {x}, done[x := c];
      }
      assert done == affected;
      ok := true;
    }

    /** The connection above a removed one inherits its changes, in the journal and in memory. */
    method SyncDefaultRouteRemoval(removed: Conn) returns (ok: bool, ghost affected: map<string, Conn>)
      requires DistinctIfaces(connections)
      modifies this`connections, m
      ensures m.table == old(m.table) && OnlyFrom(affected.Keys, old(m.journal), m.journal) && old(m.trace) <= m.trace
      ensures AreHeirs(old(connections), removed, affected)
      ensures ok ==>
        && connections == AllHeirs(old(connections), removed)
        && Rewritten(affected, old(m.journal), m.journal)
      ensures !ok ==> connections == old(connections)
      ensures m.reliable ==> ok
    {
      var heirs := Heirs(connections, removed);
      affected := heirs;
      ok := RewriteEntries(heirs);
      if ok {
        AllHeirsAre(connections, removed, heirs);
        connections := map x | x in connections :: if x in heirs then heirs[x] else connections[x];
      }
    }

    /** Tells the other connections that c, already cleaned up, is gone; c itself is still tracked. */
    method SyncCleanedUp(c: Conn, ghost s: State, ghost id: string) returns (ok: bool)
      requires AllTidy(s.conns) && Owned(s.journal, s.conns) && "" !in s.conns && id in s.conns && c == s.conns[id]
      requires connections == s.conns && m.table == TableWithout(s.table, c) && m.journal == s.journal - {c.iface}
      modifies this`connections, m
      ensures m.table == old(m.table) && connections.Keys == s.conns.Keys && old(m.trace) <= m.trace
      ensures c.isDefault ==> m.journal == old(m.journal) && m.trace == old(m.trace)
      ensures ok ==> Detached(s, id, Now())
      ensures SelectsOnly(Target(id, {}), m.journal, m.table, c.iface)
      ensures m.reliable ==> ok
    {
      if c.isDefault {
        connections := RestoreOwners(connections, c.changes);
        ok := true;
        CleanedUpDefault(s, id, Now());
      } else {
        ghost var affected: map<string, Conn>;
        ok, affected := SyncDefaultRouteRemoval(c);
        CleanedUpBehind(s, id, affected, Now(), ok);
      }
    }

    /**
     The journal entry of a default connection leads back from the table as it
     is to the one that letting go of the connection gives.
     */
    ghost predicate Leans(id: string)
      reads this, m
    {
      id in connections && connections[id].isDefault &&
        var c := connections[id];
        && c.iface in m.journal
        && Backed(Snapshot(m.table, m.journal), c.iface, m.journal[c.iface], Left(id), c.routes, c.changes)
    }

    ghost function Left(id: string): Origin
      reads this, m
      requires id in connections
    {
      LeftBy(Snapshot(m.table, m.journal), id, connections[id])
    }

    /** Cleans the table and the journal up and tells the other connections, the connection itself still tracked. */
    method Detach(id: string) returns (ok: bool, ghost stuck: bool)
      requires Valid() && id in connections
      modifies this`connections, m
      ensures Proper(m.table) && connections.Keys == old(connections.Keys)
      ensures ok ==> Detached(old(Now()), id, Now())
      ensures SelectsOnly(Target(id, {}), m.journal, m.table, old(connections)[id].iface)
      ensures m.reliable && old(Undoable(Now(), id)) ==> ok
      ensures old(m.trace) <= m.trace && (stuck ==> !m.reliable)
      ensures old(Leans(id)) ==>
        KeepsCover(m, |old(m.trace)|, old(connections)[id].iface, old(Left(id)), stuck)
    {
      ghost var s := Now();
      var c := connections[id];
      ghost var entry := if c.iface in m.journal then m.journal[c.iface] else Entry("", [], []);
      ghost var o := Left(id);
      ok, stuck := CleanupTracked(c, entry, o);
      if !ok {
        OnlyOwnSelected(s, id, m.journal, map[], m.journal, m.table);
        return;
      }
      ok := SyncCleanedUp(c, s, id);
    }

    /** Recovers what is left of the modem's entries. */
    method RecoverStale(id: string, ifaces: set<string>, ghost iface: string, ghost o: Origin) returns (ok: bool)
      requires Proper(m.table) && SelectsOnly(Target(id, ifaces), m.journal, m.table, iface)
      modifies m
      ensures old(m.trace) <= m.trace
      ensures old(SelectsNone(Target(id, ifaces), m.journal, m.table)) ==>
        && m.table == old(m.table) && m.journal == old(m.journal) && m.trace == old(m.trace)
        && (m.reliable ==> ok)
      ensures var s := old(Snapshot(m.table, m.journal));
        Covered(s, iface, o) && o.modem == id != "" ==>
          && Good(m, |old(m.trace)|, CoveredBy(iface, o)) && (m.reliable ==> ok)
          && (ok && iface in s.journal ==> m.table == o.table && m.journal == o.journal)
    {
      ghost var order;
      ok, order := RestoreStaleStates(m, Target(id, ifaces), iface, o);
    }

    /** Lets go of the modem's connection. What is done without a tracked one depends on what became of the bearer. */
    method Disconnect(id: string, found: Found, ghost iface: string, ghost base: Table)
      returns (ok: bool, ghost stuck: bool, ghost state: Option<nat>)
      requires id != "" && (Valid() || Stopped(id, iface, base))
      requires id !in connections && found.Up? ==>
        Unused(found.bearer.iface) && (Valid() || iface == found.bearer.iface)
      modifies this`connections, m
      ensures old(Valid() && (id in connections || !found.Up?)) && ok ==> Valid() && Disconnects(old(Now()), id, Now())
      ensures m.reliable && old(Valid() && (id in connections || !found.Up?) && Undoable(Now(), id)) ==> ok
      ensures old(Valid() && Leans(id)) ==>
        KeepsCover(m, |old(m.trace)|, old(connections)[id].iface, old(Left(id)), stuck)
      ensures old(id !in connections && Stopped(id, iface, base)) && !found.Up? ==>
        Reverts(old(Now()), |old(m.trace)|, id, iface, base, ok)
      ensures id !in old(connections) && found.Up? ==> CleansUpIf(old(Now()), id, found.bearer, iface, base, ok, state)
      ensures stuck ==> !m.reliable
    {
      stuck, state := false, None;
      if id in connections {
        ok, stuck := DisconnectTracked(id);
      } else {
        ok, state := DisconnectUntracked(id, found, iface, base);
      }
    }

    /** If the bearer is gone or down, entries of the modem are recovered; if it is up, its routes are cleaned up. */
    method DisconnectUntracked(id: string, found: Found, ghost iface: string, ghost base: Table)
      returns (ok: bool, ghost state: Option<nat>)
      requires id != "" && id !in connections && (Valid() || Stopped(id, iface, base))
      requires found.Up? ==> Unused(found.bearer.iface) && (Valid() || iface == found.bearer.iface)
      modifies m
      ensures old(Valid()) && !found.Up? ==> Now() == old(Now()) && (m.reliable ==> ok)
      ensures old(Stopped(id, iface, base)) && !found.Up? ==> Reverts(old(Now()), |old(m.trace)|, id, iface, base, ok)
      ensures found.Up? ==> CleansUpIf(old(Now()), id, found.bearer, iface, base, ok, state)
    {
      state := None;
      if found.Up? {
        ok, state := DropConnected(id, found.bearer, iface, base);
      } else {
        ok := DropStale(id, if found.Down? then {found.iface} else {}, iface, base);
      }
    }

    /** A bearer that was up in s but not tracked has been cleaned up, certainly so after a stop. */
    ghost predicate CleansUpIf(s: State, id: string, b: Bearer, iface: string, base: Table, ok: bool,
                               state: Option<nat>)
      reads this, m
    {
      && Read(m.reliable, s.table, b.iface, state)
      && (ok ==> Valid() && CleansUp(s, id, b, state, Now()))
      && (m.reliable && StoppedFor(Snapshot(s.table, s.journal), b, Origin(base, s.journal - {iface}, id)) ==> ok)
    }

    /** The stopped takeover has been undone, or still can be, and could be at every stop since. */
    ghost predicate Reverts(s: State, n: nat, id: string, iface: string, base: Table, ok: bool)
      reads this, m
    {
      && (if ok then Valid() && Now() == State(base, s.journal - {iface}, s.conns)
          else Stopped(id, iface, base) && connections == s.conns)
      && Good(m, n, CoveredBy(iface, Origin(base, s.journal - {iface}, id)))
      && (m.reliable ==> ok)
    }

    ghost predicate Unused(iface: string)
      reads this
    {
      forall x :: x in connections ==> connections[x].iface != iface
    }

    /** What the stopped takeover of the modem on the interface started from. */
    ghost function Before(id: string, iface: string, base: Table): Origin
      reads m
    {
      Origin(base, m.journal - {iface}, id)
    }

    method DisconnectTracked(id: string) returns (ok: bool, ghost stuck: bool)
      requires id != "" && Valid() && id in connections
      modifies this`connections, m
      ensures ok ==> Valid() && Disconnects(old(Now()), id, Now())
      ensures m.reliable && old(Undoable(Now(), id)) ==> ok
      ensures stuck ==> !m.reliable
      ensures old(Leans(id)) ==>
        KeepsCover(m, |old(m.trace)|, old(connections)[id].iface, old(Left(id)), stuck)
    {
      ghost var s, before := Now(), m.trace;
      ghost var own, o := connections[id].iface, Left(id);
      ok, stuck := Detach(id);
      if ok { DetachedIsDisconnected(s, id, Now()); }
      ghost var between := m.trace;
      var recovered := RecoverStale(id, {}, own, o);
      connections := connections - {id};
      ok := ok && recovered;
    }

    /** The untracked part: only entries of the modem are taken up. */
    method DropStale(id: string, ifaces: set<string>, ghost iface: string, ghost base: Table) returns (ok: bool)
      requires id != "" && id !in connections && (Valid() || Stopped(id, iface, base))
      modifies m
      ensures old(Valid()) ==> m.table == old(m.table) && m.journal == old(m.journal) && (m.reliable ==> ok)
      ensures old(Stopped(id, iface, base)) ==> Reverts(old(Now()), |old(m.trace)|, id, iface, base, ok)
    {
      ghost var o := Before(id, iface, base);
      OnlyStaleSelected(m.journal, connections, id, ifaces, iface, m.table);
      ghost var stopped := Covered(Snapshot(m.table, m.journal), iface, o);
      if stopped { CoveredIsProper(Snapshot(m.table, m.journal), iface, o); }
      ok := RecoverStale(id, ifaces, iface, o);
      if stopped { StillBefore(Snapshot(m.table, m.journal), iface, o); }
    }

    /** The bearer is up and nobody tracks it. */
    method DropConnected(id: string, b: Bearer, ghost iface: string, ghost base: Table)
      returns (ok: bool, ghost state: Option<nat>)
      requires id != "" && id !in connections && Unused(b.iface)
      requires Valid() || (iface == b.iface && Stopped(id, iface, base))
      modifies m
      ensures CleansUpIf(old(Now()), id, b, iface, base, ok, state)
    {
      ghost var o, s := Before(id, iface, base), Now();
      if Valid() { StillOwnedWithout(m.journal, connections, b.iface); }
      ok, state := CleanUpConnected(id, b, o);
      OnlyStaleSelected(m.journal, connections, id, {}, b.iface, m.table);
      assert ok ==> Valid() && CleansUp(s, id, b, state, Now());
      var restored := RecoverStale(id, {}, b.iface, o);
      ok := ok && restored;
    }

    /** The routes, the changes and the entry. */
    method CleanUpConnected(id: string, b: Bearer, ghost o: Origin) returns (ok: bool, ghost state: Option<nat>)
      requires Proper(m.table) && o.modem == id
      modifies m
      ensures Proper(m.table) && Read(m.reliable, old(m.table), b.iface, state)
      ensures m.journal - {b.iface} == old(m.journal) - {b.iface}
      ensures ok ==> m.journal == old(m.journal) - {b.iface}
      ensures ok ==> m.table == CleanedUp(old(Snapshot(m.table, m.journal)), id, b, state)
      ensures m.reliable && StoppedFor(old(Snapshot(m.table, m.journal)), b, o) ==> ok
    {
      ghost var s := Snapshot(m.table, m.journal);
      ok, state := CleanupBearer(m, id, b);
      if m.reliable && StoppedFor(s, b, o) { CleanedUpAfterStop(s, b, o, state); }
      if ok {
        var dropped := m.DeleteRouteState(b.iface);
        ok := dropped.Applied?;
      }
    }

    /** The bearer has been adopted, certainly so if it has addresses and the entry is not another modem's. */
    ghost predicate AdoptsIf(s: State, id: string, b: Bearer, fallback: bool, ok: bool,
                             first: Option<nat>, state: Option<nat>)
      reads this, m
    {
      var before, now := Snapshot(s.table, s.journal), Snapshot(m.table, m.journal);
      && Read(m.reliable, s.table, b.iface, first) && Read(m.reliable, s.table, b.iface, state)
      && (m.reliable && b.iface != "" && b.links != [] ==>
            ok || (b.iface in s.journal && OwnChanges(s.journal, id, b.iface) == None))
      && if ok then
           && id in connections && connections == s.conns[id := connections[id]]
           && Adopts(before, id, b, state, FoundFlag(first, fallback), connections[id], now)
         else
           connections == s.conns
    }

    /**
     What a new process does about a modem before anything else: it adopts a
     bearer that is up, and recovers the entries of one that is not.
     */
    method Recover(id: string, found: Found, fallback: bool, ghost iface: string, ghost base: Table)
      returns (ok: bool, ghost first: Option<nat>, ghost state: Option<nat>)
      requires id != "" && id !in connections && (Valid() || Stopped(id, iface, base))
      modifies this`connections, m
      ensures old(Valid()) && !found.Up? ==> Now() == old(Now()) && (m.reliable ==> ok)
      ensures old(Stopped(id, iface, base)) && !found.Up? ==> Reverts(old(Now()), |old(m.trace)|, id, iface, base, ok)
      ensures found.Up? ==> AdoptsIf(old(Now()), id, found.bearer, fallback, ok, first, state)
    {
      first, state := None, None;
      if found.Up? {
        var c;
        c, ok, first, state := RecoverTrackedConnection(m, id, found.bearer, fallback);
        if ok {
          connections := connections[id := c];
        }
      } else {
        ok := DropStale(id, if found.Down? then {found.iface} else {}, iface, base);
      }
    }

    /** Writes an entry that is already there. */
    method SaveAgain(iface: string, entry: Entry, ghost n: nat, ghost good: Snapshot -> bool) returns (ok: bool)
      requires iface in m.journal && m.journal[iface] == entry
      modifies m
      ensures m.table == old(m.table) && m.journal == old(m.journal)
      ensures old(Good(m, n, good)) ==> Good(m, n, good)
      ensures m.reliable ==> ok
    {
      assert m.journal[iface := entry] == m.journal;
      var saved := m.PutRouteState(iface, entry);
      ok := saved.Applied?;
    }

    /**
     Demotes the owners of the routes a new connection has moved, and records
     it as tracked. The owners share their lists of routes with the working
     copy, so a failed write leaves them with new routes but old metrics.
     */
    method Track(id: string, c: Conn, ghost n: nat, ghost good: Snapshot -> bool) returns (ok: bool)
      requires AllTidy(connections) && Steady(c.changes)
      requires c.changes != [] ==> c.iface in m.journal && m.journal[c.iface] == Entry(id, c.routes, c.changes)
      modifies this`connections, m
      ensures m.table == old(m.table) && m.journal == old(m.journal)
      ensures old(Good(m, n, good)) ==> Good(m, n, good)
      ensures connections == if ok then AllDemoted(old(connections), c.changes)[id := c]
        else HalfDemoted(old(connections), c.changes)
      ensures !ok ==> connections.Keys == old(connections).Keys && forall x :: x in connections ==>
        && connections[x] == old(connections)[x].(routes := connections[x].routes)
        && connections[x].routes == DemotedConn(old(connections)[x], c.changes).routes
      ensures m.reliable ==> ok
    {
      NothingDemoted(connections);
      if |c.changes| == 0 {
        connections := connections[id := c];
        return true;
      }
      var owners, affected := DemoteOwners(connections, c.changes);
      if affected {
        ok := SaveAgain(c.iface, Entry(id, c.routes, c.changes), n, good);
        if !ok {
          connections := SharedRoutes(connections, owners);
          HalfIsShared(old(connections), owners, c.changes);
          return;
        }
      }
      connections := owners[id := c];
      ok := true;
    }

    /**
     Where something competes, so that there is an entry, the journal leads back
     to the table before it wherever the connect is stopped, whether it succeeds
     or not, but for an added route that could not be deleted again.
     */
    method ConnectAsDefault(id: string, b: Bearer) returns (ok: bool, ghost stuck: bool)
      requires Valid() && id != "" && id !in connections && b.links != []
      requires forall x :: x in connections ==> connections[x].iface != b.iface
      modifies this`connections, m
      ensures ok || m.reliable ==> Valid() && Connects(old(Now()), id, b, true, Now())
      ensures ok ==> id in connections
      ensures ok ==> (connections[id].changes != [] <==> SomeCompetes(old(m.table), RoutesFor(b, DEFAULT_METRIC)))
      ensures stuck ==> !ok && !m.reliable
      ensures old(WritesEntry(m, id, b, m.table)) ==>
        KeepsCover(m, |old(m.trace)|, b.iface, old(Origin(m.table, m.journal, id)), stuck)
    {
      ghost var s := Now();
      var c, configured;
      ghost var current;
      ghost var n, o := |m.trace|, Origin(m.table, m.journal, id);
      c, configured, current, stuck := ConfigureFresh(id, b);
      if !configured {
        assert m.reliable ==> Now() == s && s == ConnectedAsDefault(s, id, b, current);
        return false, stuck;
      }
      ok := Track(id, c, n, CoveredBy(b.iface, o));
      if !ok {
        stuck := GiveBack(c, id, o, n);
        return;
      }
      ConnectedInOrder(s, id, b, current, c, Now());
    }

    /** Configures a bearer whose interface is not in use, so that there is nothing to recover first. */
    method ConfigureFresh(id: string, b: Bearer)
      returns (c: Conn, ok: bool, ghost current: seq<Route>, ghost stuck: bool)
      requires Valid() && id != "" && id !in connections
      requires forall x :: x in connections ==> connections[x].iface != b.iface
      modifies m
      ensures c.iface == b.iface && c.routes == RoutesFor(b, DEFAULT_METRIC) && c.metric == DEFAULT_METRIC &&
        c.isDefault
      ensures old(m.trace) <= m.trace && (stuck ==> !ok && !m.reliable)
      ensures ok ==>
        && Configured(old(m.table), old(m.journal), id, b, current, m.table, m.journal, c.changes)
        && Proper(m.table) && Steady(c.changes) && Planned(old(m.table), c.changes)
        && (c.changes != [] <==> SomeCompetes(old(m.table), c.routes))
      ensures m.reliable && !ok ==>
        m.table == old(m.table) && m.journal == old(m.journal) && Refused(old(m.table), b, current)
      ensures old(WritesEntry(m, id, b, m.table)) ==>
        KeepsCover(m, |old(m.trace)|, b.iface, old(Origin(m.table, m.journal, id)), stuck)
    {
      ghost var t, j := m.table, m.journal;
      NobodySelected(m.journal, connections, id, {b.iface}, m.table);
      IfaceNotInJournal(Now(), b.iface);
      c, ok, current, stuck := ConfigureDefault(m, id, b, m.table);
      if ok {
        ConfiguredSteady(t, j, id, b, current, m.table, m.journal, c.changes);
        PlanIsNotEmpty(t, current, c.routes);
      }
    }

    /** Takes a finished configuration back because the owners could not be told. */
    method GiveBack(c: Conn, id: string, ghost o: Origin, ghost n: nat) returns (ghost stuck: bool)
      requires Proper(m.table) && Planned(o.table, c.changes) && c.isDefault && o.modem == id
      requires CanInsertAll(MovedAll(o.table, c.changes), c.routes)
      requires m.table == InsertedAll(MovedAll(o.table, c.changes), c.routes)
      requires c.changes != [] ==> m.journal == o.journal[c.iface := Entry(id, c.routes, c.changes)]
      modifies m
      ensures stuck ==> !m.reliable
      ensures c.changes != [] && old(Good(m, n, CoveredBy(c.iface, o))) ==>
        KeepsCover(m, n, c.iface, o, stuck)
    {
      ghost var before, covered := m.trace, Good(m, n, CoveredBy(c.iface, o));
      ghost var entry := Entry(id, c.routes, c.changes);
      RolledBack(o.table, c.changes, c.routes);
      NamesItsOwn(entry, c.routes);
      var cleaned;
      cleaned, stuck := CleanupTracked(c, entry, o);
      if covered { GoodJoins(m, n, before, CoveredBy(c.iface, o)); }
    }

    method ConnectAsSecondary(id: string, b: Bearer) returns (ok: bool)
      requires Valid() && id != "" && id !in connections && b.links != []
      requires forall x :: x in connections ==> connections[x].iface != b.iface
      modifies this`connections, m
      ensures ok || m.reliable ==> Valid() && Connects(old(Now()), id, b, false, Now())
      ensures ok ==> id in connections
    {
      ghost var s := Now();
      var c, configured;
      ghost var current;
      c, configured, current := ConfigureSecondary(m, b);
      if !configured {
        assert m.reliable ==> Now() == s && s == ConnectedAsSecondary(s, id, b, c.metric);
        return false;
      }
      ok := Track(id, c, 0, s => true);
      if !ok {
        var cleaned;
        ghost var stuck;
        cleaned, stuck := CleanupTracked(c, Entry("", [], []), Origin(m.table, m.journal, ""));
        return;
      }
      SecondaryInOrder(s, id, b, c, Now());
    }

    /**
     Lets go of the modem's previous connection, as Disconnect does, then
     configures the bearer and tracks it. dropped is the state between the two.
     */
    method Connect(id: string, found: Found, b: Bearer, asDefault: bool, ghost iface: string, ghost base: Table)
      returns (ok: bool, ghost dropped: State, ghost state: Option<nat>)
      requires id != "" && (Valid() || Stopped(id, iface, base))
      requires id !in connections && found.Up? ==>
        Unused(found.bearer.iface) && (Valid() || iface == found.bearer.iface)
      requires forall x :: x in connections && x != id ==> connections[x].iface != b.iface
      modifies this`connections, m
      ensures old(Valid() && (id in connections || !found.Up?)) && (ok || (m.reliable && old(Undoable(Now(), id)))) ==>
        Valid() && Disconnects(old(Now()), id, dropped) && Connects(dropped, id, b, asDefault, Now())
      ensures old(Stopped(id, iface, base)) && !found.Up? && (ok || m.reliable) ==>
        && Valid() && dropped == State(base, old(m.journal) - {iface}, old(connections))
        && Connects(dropped, id, b, asDefault, Now())
      ensures id !in old(connections) && found.Up? ==>
        var stopped := StoppedFor(old(Snapshot(m.table, m.journal)), found.bearer, old(Before(id, iface, base)));
        && Read(m.reliable, old(m.table), found.bearer.iface, state)
        && (ok || (m.reliable && stopped) ==>
              && Valid() && CleansUp(old(Now()), id, found.bearer, state, dropped)
              && Connects(dropped, id, b, asDefault, Now()))
      ensures ok ==>
        && id in connections && connections[id].isDefault == asDefault && ServesBearer(m.table, b, connections[id])
        && if asDefault then connections[id].metric == 10 else connections[id].metric >= 9000
    {
      ghost var s, tracked := Now(), Valid() && (id in connections || !found.Up?);
      ghost var stuck;
      ok, stuck, state := Disconnect(id, found, iface, base);
      dropped := Now();
      if !ok {
        return;
      }
      if tracked { DroppedIfaces(s, id, dropped); }
      if |b.links| == 0 {
        return false, dropped, state;
      }
      if asDefault {
        ok, stuck := ConnectAsDefault(id, b);
      } else {
        ok := ConnectAsSecondary(id, b);
      }
      if ok { ConnectedServesBearer(dropped, id, b, asDefault, Now()); }
    }
  }

  /** The connections with the lists of routes of their working copies. */
  function SharedRoutes(conns: map<string, Conn>, copies: map<string, Conn>): map<string, Conn>
    requires copies.Keys == conns.Keys
  {
    map x | x in conns :: conns[x].(routes := copies[x].routes)
  }

  lemma HalfIsShared(conns: map<string, Conn>, copies: map<string, Conn>, cs: seq<Change>)
    requires copies == AllDemoted(conns, cs)
    ensures SharedRoutes(conns, copies) == HalfDemoted(conns, cs)
  {
  }

  ghost predicate AreHeirs(conns: map<string, Conn>, removed: Conn, affected: map<string, Conn>) {
    forall x :: (x in affected <==> Rewrites(conns, x, removed)) &&
      (x in affected ==> affected[x] == HeirOf(conns[x], removed))
  }

  /** Entries that are not old ones are about modems of ids. */
  ghost predicate OnlyFrom(ids: set<string>, before: map<string, Entry>, after: map<string, Entry>) {
    forall name :: name in after ==> (name in before && after[name] == before[name]) || after[name].modem in ids
  }

  ghost predicate Spared(affected: map<string, Conn>, name: string) {
    forall x :: x in affected ==> affected[x].iface != name
  }

  ghost predicate Rewritten(affected: map<string, Conn>, before: map<string, Entry>, after: map<string, Entry>) {
    && (forall x :: x in affected ==> EntryFor(after, x, affected[x]))
    && (forall name :: Spared(affected, name) ==> EqualAt(after, before, name))
  }

  lemma RewrittenOne(done: map<string, Conn>, start: map<string, Entry>, before: map<string, Entry>, x: string,
                     c: Conn, after: map<string, Entry>)
    requires Rewritten(done, start, before) && x !in done && Spared(done, c.iface)
    requires after == if c.changes == [] then before - {c.iface} else before[c.iface := Entry(x, c.routes, c.changes)]
    ensures Rewritten(done[x := c], start, after)
  {
    var next := done[x := c];
    forall y | y in next ensures EntryFor(after, y, next[y]) {
      if y != x { assert EntryFor(before, y, done[y]); }
    }
    forall name | Spared(next, name) ensures EqualAt(after, start, name) {
      assert next[x] == c;
      assert Spared(done, name) by {
        forall y | y in done ensures done[y].iface != name { assert next[y] == done[y]; }
      }
    }
  }

  // ----- after the removal -----

  /** The only entry that an untracked modem can find is the one on the interface it was stopped on. */
  lemma OnlyStaleSelected(journal: map<string, Entry>, conns: map<string, Conn>, id: string, ifaces: set<string>,
                          iface: string, t: Table)
    requires Owned(journal - {iface}, conns) && id !in conns && id != ""
    ensures SelectsOnly(Target(id, ifaces), journal, t, iface)
    ensures Owned(journal, conns) ==> SelectsNone(Target(id, ifaces), journal, t)
  {
    forall name | name in journal && name != iface ensures !Target(id, ifaces).Picks(name, journal[name], t) {
      assert OwnedBy((journal - {iface})[name], name, conns);
    }
    if Owned(journal, conns) { NobodySelected(journal, conns, id, ifaces, t); }
  }

  lemma StillOwnedWithout(journal: map<string, Entry>, conns: map<string, Conn>, iface: string)
    requires Owned(journal, conns)
    ensures Owned(journal - {iface}, conns)
  {
    forall name | name in journal - {iface} ensures OwnedBy((journal - {iface})[name], name, conns) {
      assert OwnedBy(journal[name], name, conns);
    }
  }

  /** u is s after the modem's bearer, which is up but not tracked, has been cleaned up. */
  ghost predicate CleansUp(s: State, id: string, b: Bearer, state: Option<nat>, u: State) {
    && u.table == CleanedUp(Snapshot(s.table, s.journal), id, b, state)
    && u.journal == s.journal - {b.iface} && u.conns == s.conns
  }

  lemma StillBefore(s: Snapshot, iface: string, o: Origin)
    requires Covered(s, iface, o) && Proper(o.table)
    ensures s.journal - {iface} == o.journal && Proper(s.table)
    ensures Origin(o.table, s.journal - {iface}, o.modem) == o
  {
  }

  lemma CoveredIsProper(s: Snapshot, iface: string, o: Origin)
    requires Covered(s, iface, o) && Proper(s.table)
    ensures Proper(o.table)
  {
  }

  lemma NobodySelected(journal: map<string, Entry>, conns: map<string, Conn>, id: string, ifaces: set<string>, t: Table)
    requires Owned(journal, conns) && id !in conns && id != ""
    ensures SelectsNone(Target(id, ifaces), journal, t)
  {
    assert forall name :: name in journal ==> OwnedBy(journal[name], name, conns);
  }

  /** The only entry a disconnect can still find for its modem is the one on its interface. */
  lemma OnlyOwnSelected(s: State, id: string, cleaned: map<string, Entry>, affected: map<string, Conn>,
                        journal: map<string, Entry>, t: Table)
    requires Owned(s.journal, s.conns) && id in s.conns && id != "" && "" !in affected
    requires cleaned == s.journal || cleaned == s.journal - {s.conns[id].iface}
    requires id !in affected && OnlyFrom(affected.Keys, cleaned, journal)
    ensures SelectsOnly(Target(id, {}), journal, t, s.conns[id].iface)
    ensures s.conns[id].iface !in journal ==> SelectsNone(Target(id, {}), journal, t)
  {
    forall name | name in journal && Target(id, {}).Matches(name, journal[name]) ensures name == s.conns[id].iface {
      assert OwnedBy(s.journal[name], name, s.conns);
    }
  }

  lemma OnlyOwnSelectedDefault(s: State, id: string, t: Table)
    requires Owned(s.journal, s.conns) && id in s.conns && "" !in s.conns
    ensures SelectsOnly(Target(id, {}), s.journal - {s.conns[id].iface}, t, s.conns[id].iface)
  {
    var kept := s.journal - {s.conns[id].iface};
    OnlyOwnSelected(s, id, kept, map[], kept, t);
  }

  lemma OnlyOwnSelectedBehind(s: State, id: string, affected: map<string, Conn>, journal: map<string, Entry>, t: Table)
    requires Owned(s.journal, s.conns) && id in s.conns && "" !in s.conns && AreHeirs(s.conns, s.conns[id], affected)
    requires OnlyFrom(affected.Keys, s.journal - {s.conns[id].iface}, journal)
    ensures SelectsOnly(Target(id, {}), journal, t, s.conns[id].iface)
  {
    OnlyOwnSelected(s, id, s.journal - {s.conns[id].iface}, affected, journal, t);
  }

  lemma TidyRestored(c: Conn, cs: seq<Change>)
    requires Tidy(c) && Steady(cs)
    ensures Tidy(RestoredConn(c, cs)) && RestoredConn(c, cs).iface == c.iface
  {
    forall i | 0 <= i < |c.routes| ensures RestoredRoute(c.routes[i], cs).iface == c.routes[i].iface {
      SameIface(c.routes[i], cs);
    }
  }

  lemma TidyDemoted(c: Conn, cs: seq<Change>)
    requires Tidy(c) && Steady(cs)
    ensures Tidy(DemotedConn(c, cs)) && DemotedConn(c, cs).iface == c.iface
  {
    forall i | 0 <= i < |c.routes| ensures DemotedRoute(c.routes[i], cs).iface == c.routes[i].iface {
      SameIface(c.routes[i], cs);
    }
  }

  lemma {:induction false} SameIface(r: Route, cs: seq<Change>)
    requires Steady(cs)
    ensures RestoredRoute(r, cs).iface == r.iface && DemotedRoute(r, cs).iface == r.iface
    decreases |cs|
  {
    if cs != [] {
      var n := |cs| - 1;
      SameIface(r, cs[..n]);
      SameIface(if Same(r, cs[n].replacement) then cs[n].original else r, cs[..n]);
    }
  }

  lemma {:induction false} SteadyInherited(cs: seq<Change>, removed: Conn, inherited: bool)
    requires Steady(cs) && Steady(removed.changes)
    ensures Steady(InheritedFrom(cs, removed, inherited))
  {
    if cs != [] {
      SteadyInherited(cs[1..], removed, inherited || Exists(cs[0].replacement, removed.routes));
    }
  }

  lemma TidyHeir(owner: Conn, removed: Conn)
    requires Tidy(owner) && Tidy(removed)
    ensures Tidy(HeirOf(owner, removed)) && HeirOf(owner, removed).iface == owner.iface
  {
    SteadyInherited(owner.changes, removed, false);
    assert owner.routes != [] ==> owner == WithRoutes(owner, owner.routes);
  }

  lemma RemovalTidies(conns: map<string, Conn>, id: string)
    requires AllTidy(conns) && id in conns
    ensures AllTidy(ConnsWithout(conns, conns[id]) - {id})
    ensures forall x :: x in conns ==> ConnsWithout(conns, conns[id])[x].iface == conns[x].iface
  {
    forall x | x in conns
      ensures Tidy(ConnsWithout(conns, conns[id])[x]) && ConnsWithout(conns, conns[id])[x].iface == conns[x].iface
    {
      TidyRestored(conns[x], conns[id].changes);
      TidyHeir(conns[x], conns[id]);
    }
  }

  /** Everything of a disconnect is done except dropping the connection from the map. */
  ghost predicate Detached(s: State, id: string, u: State)
    requires id in s.conns
  {
    && u.table == TableWithout(s.table, s.conns[id])
    && u.conns == ConnsWithout(s.conns, s.conns[id])
    && JournalWithout(s, s.conns[id], u.journal)
    && Owned(u.journal, u.conns - {id})
    && s.conns[id].iface !in u.journal
  }

  lemma DetachedDefault(s: State, id: string, u: State)
    requires AllTidy(s.conns) && Owned(s.journal, s.conns) && id in s.conns && s.conns[id].isDefault
    requires u.table == TableWithout(s.table, s.conns[id]) && u.conns == ConnsWithout(s.conns, s.conns[id])
    requires u.journal == s.journal - {s.conns[id].iface}
    ensures Detached(s, id, u)
  {
    RemovalTidies(s.conns, id);
    StillOwned(s.journal, s.conns, id, u.conns);
  }

  lemma StillOwned(journal: map<string, Entry>, conns: map<string, Conn>, id: string, u: map<string, Conn>)
    requires Owned(journal, conns) && id in conns && u.Keys == conns.Keys
    requires forall x :: x in conns ==> u[x].iface == conns[x].iface
    ensures Owned(journal - {conns[id].iface}, u - {id})
  {
    forall name | name in journal && name != conns[id].iface ensures OwnedBy(journal[name], name, u - {id}) {
      assert OwnedBy(journal[name], name, conns);
    }
  }

  lemma AllHeirsAre(conns: map<string, Conn>, removed: Conn, affected: map<string, Conn>)
    requires AreHeirs(conns, removed, affected)
    ensures AllHeirs(conns, removed) == map x | x in conns :: if x in affected then affected[x] else conns[x]
  {
  }

  lemma CleanedUpDefault(s: State, id: string, u: State)
    requires AllTidy(s.conns) && Owned(s.journal, s.conns) && "" !in s.conns && id in s.conns && s.conns[id].isDefault
    requires u.table == TableWithout(s.table, s.conns[id]) && u.conns == ConnsWithout(s.conns, s.conns[id])
    requires u.journal == s.journal - {s.conns[id].iface}
    ensures Detached(s, id, u) && SelectsOnly(Target(id, {}), u.journal, u.table, s.conns[id].iface)
  {
    DetachedDefault(s, id, u);
    OnlyOwnSelectedDefault(s, id, u.table);
  }

  lemma CleanedUpBehind(s: State, id: string, affected: map<string, Conn>, u: State, ok: bool)
    requires AllTidy(s.conns) && Owned(s.journal, s.conns) && id in s.conns && !s.conns[id].isDefault && "" !in s.conns
    requires u.table == TableWithout(s.table, s.conns[id]) && AreHeirs(s.conns, s.conns[id], affected)
    requires OnlyFrom(affected.Keys, s.journal - {s.conns[id].iface}, u.journal)
    requires ok ==>
      u.conns == ConnsWithout(s.conns, s.conns[id]) && Rewritten(affected, s.journal - {s.conns[id].iface}, u.journal)
    ensures ok ==> Detached(s, id, u)
    ensures SelectsOnly(Target(id, {}), u.journal, u.table, s.conns[id].iface)
  {
    if ok { DetachedBehind(s, id, affected, u); }
    OnlyOwnSelectedBehind(s, id, affected, u.journal, u.table);
  }

  lemma DetachedBehind(s: State, id: string, affected: map<string, Conn>, u: State)
    requires AllTidy(s.conns) && Owned(s.journal, s.conns) && id in s.conns && !s.conns[id].isDefault && "" !in s.conns
    requires u.table == TableWithout(s.table, s.conns[id]) && u.conns == ConnsWithout(s.conns, s.conns[id])
    requires AreHeirs(s.conns, s.conns[id], affected) && Rewritten(affected, s.journal - {s.conns[id].iface}, u.journal)
    ensures Detached(s, id, u)
  {
    var kept := s.journal - {s.conns[id].iface};
    RemovalTidies(s.conns, id);
    JournalRewritten(s, s.conns[id], affected, u.journal);
    assert EqualAt(u.journal, kept, s.conns[id].iface);
    forall name | name in u.journal ensures OwnedBy(u.journal[name], name, u.conns - {id}) {
      if name in kept && u.journal[name] == kept[name] {
        assert OwnedBy(s.journal[name], name, s.conns);
      } else {
        OwnedByHeir(s, id, affected, u.journal, name);
      }
    }
  }

  lemma DetachedIsDisconnected(s: State, id: string, u: State)
    requires AllTidy(s.conns) && id in s.conns && id != "" && Detached(s, id, u)
    ensures Disconnects(s, id, State(u.table, u.journal, u.conns - {id}))
    ensures AllTidy(u.conns - {id})
    ensures SelectsNone(Target(id, {}), u.journal, u.table)
  {
    RemovalTidies(s.conns, id);
    NobodySelected(u.journal, u.conns - {id}, id, {}, u.table);
  }

  lemma JournalRewritten(s: State, removed: Conn, affected: map<string, Conn>, journal: map<string, Entry>)
    requires !removed.isDefault && AreHeirs(s.conns, removed, affected)
    requires Rewritten(affected, s.journal - {removed.iface}, journal)
    ensures JournalWithout(s, removed, journal) && Spared(affected, removed.iface)
  {
    forall name | forall x :: Rewrites(s.conns, x, removed) ==> s.conns[x].iface != name
      ensures Spared(affected, name)
    {
    }
  }

  /** An entry that is not an old one sits on its heir's interface. */
  lemma OwnedByHeir(s: State, id: string, affected: map<string, Conn>, journal: map<string, Entry>, name: string)
    requires id in s.conns && AreHeirs(s.conns, s.conns[id], affected) && "" !in s.conns && DistinctIfaces(s.conns)
    requires Rewritten(affected, s.journal - {s.conns[id].iface}, journal) && name in journal
    requires var kept := s.journal - {s.conns[id].iface}; !(name in kept && journal[name] == kept[name])
    ensures journal[name].modem in s.conns && journal[name].modem != id && journal[name].modem != ""
    ensures s.conns[journal[name].modem].iface == name
  {
    var kept := s.journal - {s.conns[id].iface};
    assert Spared(affected, name) ==> EqualAt(journal, kept, name);
    var x :| x in affected && affected[x].iface == name;
    assert Rewrites(s.conns, x, s.conns[id]) && EntryFor(journal, x, affected[x]);
  }

  // ----- after a connect -----

  lemma IfaceNotInJournal(s: State, iface: string)
    requires Owned(s.journal, s.conns) && forall x :: x in s.conns ==> s.conns[x].iface != iface
    ensures iface !in s.journal
  {
    assert iface in s.journal ==> OwnedBy(s.journal[iface], iface, s.conns);
  }

  lemma ConfiguredSteady(t: Table, j: map<string, Entry>, id: string, b: Bearer, current: seq<Route>,
                         u: Table, k: map<string, Entry>, cs: seq<Change>)
    requires Proper(t) && Configured(t, j, id, b, current, u, k, cs)
    ensures Steady(cs) && Proper(u)
  {
    ChangesArePlanned(t, current, RoutesFor(b, DEFAULT_METRIC));
    MovedAllSlots(t, cs);
    RemovedInserted(MovedAll(t, cs), RoutesFor(b, DEFAULT_METRIC));
  }

  lemma NewTidy(b: Bearer, metric: nat, cs: seq<Change>)
    requires b.links != [] && Steady(cs)
    ensures Tidy(Conn(b.iface, RoutesFor(b, metric), metric, metric <= DEFAULT_METRIC, cs))
  {
    var routes := RoutesFor(b, metric);
    assert routes[0].iface == b.iface;
  }

  lemma ConnsInOrder(conns: map<string, Conn>, id: string, c: Conn, cs: seq<Change>)
    requires AllTidy(conns) && Tidy(c) && Steady(cs) && id !in conns
    requires forall x :: x in conns ==> conns[x].iface != c.iface
    ensures var u := AllDemoted(conns, cs)[id := c];
      AllTidy(u) && forall x :: x in conns ==> x in u && u[x].iface == conns[x].iface
  {
    forall x | x in conns ensures Tidy(DemotedConn(conns[x], cs)) && DemotedConn(conns[x], cs).iface == conns[x].iface {
      TidyDemoted(conns[x], cs);
    }
  }

  lemma OwnedWith(j: map<string, Entry>, conns: map<string, Conn>, u: map<string, Conn>, k: map<string, Entry>,
                  id: string, c: Conn, e: Entry)
    requires Owned(j, conns) && id != "" && id in u && u[id] == c && e.modem == id
    requires forall x :: x in conns ==> x in u && u[x].iface == conns[x].iface
    requires k == j || k == j[c.iface := e]
    ensures Owned(k, u)
  {
    forall name | name in k ensures OwnedBy(k[name], name, u) {
      assert name in j ==> OwnedBy(j[name], name, conns);
    }
  }

  lemma ConnectedInOrder(s: State, id: string, b: Bearer, current: seq<Route>, c: Conn, u: State)
    requires AllTidy(s.conns) && Owned(s.journal, s.conns) && id !in s.conns && id != "" && b.links != []
    requires forall x :: x in s.conns ==> s.conns[x].iface != b.iface
    requires c == Conn(b.iface, RoutesFor(b, DEFAULT_METRIC), DEFAULT_METRIC, true, c.changes) && Steady(c.changes)
    requires Configured(s.table, s.journal, id, b, current, u.table, u.journal, c.changes)
    requires u.conns == AllDemoted(s.conns, c.changes)[id := c]
    ensures AllTidy(u.conns) && Owned(u.journal, u.conns)
    ensures u == ConnectedAsDefault(s, id, b, current)
  {
    NewTidy(b, DEFAULT_METRIC, c.changes);
    ConnsInOrder(s.conns, id, c, c.changes);
    OwnedWith(s.journal, s.conns, u.conns, u.journal, id, c, Entry(id, c.routes, c.changes));
  }

  lemma SecondaryInOrder(s: State, id: string, b: Bearer, c: Conn, u: State)
    requires Proper(s.table) && AllTidy(s.conns) && Owned(s.journal, s.conns) && id != "" && b.links != [] &&
      id !in s.conns
    requires forall x :: x in s.conns ==> s.conns[x].iface != b.iface
    requires c == Conn(b.iface, RoutesFor(b, c.metric), c.metric, false, []) && c.metric >= SECONDARY_METRIC
    requires CanInsertAll(s.table, c.routes) && u.table == InsertedAll(s.table, c.routes) && u.journal == s.journal
    requires u.conns == AllDemoted(s.conns, [])[id := c]
    ensures Proper(u.table) && AllTidy(u.conns) && Owned(u.journal, u.conns)
    ensures u == ConnectedAsSecondary(s, id, b, c.metric)
  {
    NothingDemoted(s.conns);
    RemovedInserted(s.table, c.routes);
    NewTidy(b, c.metric, []);
    OwnedWith(s.journal, s.conns, u.conns, u.journal, id, c, Entry(id, c.routes, []));
  }

  lemma DroppedIfaces(s: State, id: string, u: State)
    requires Disconnects(s, id, u)
    ensures u.conns.Keys == s.conns.Keys - {id}
    ensures forall x :: x in u.conns ==> u.conns[x].iface == s.conns[x].iface
  {
  }
}
