/**
 A process is stopped during a takeover, and a new one connects the modem: what
 becomes of the table, when the bearer is gone and when it is still up.
 */
module Restarts {
  import opened Options
  import opened Routes
  import opened Undo
  import opened Machines
  import opened Takeover
  import opened Connections
  import opened OwnerSync
  import opened Bearers
  import opened Adoption
  import opened Connectors

  /** With the bearer gone it is as if the takeover had never been begun. */
  method ConnectAfterStop(reliable: bool, s: Snapshot, id: string, found: Found, b: Bearer, asDefault: bool,
                          ghost iface: string, ghost base: Table)
    returns (c: Connector, ok: bool)
    requires id != "" && Proper(s.table) && Covered(s, iface, Origin(base, map[], id)) && !found.Up?
    ensures c.m.reliable == reliable
    ensures ok || reliable ==> c.Valid() && Connects(State(base, map[], map[]), id, b, asDefault, c.Now())
  {
    var m := new Machine(reliable, s.table, s.journal);
    c := new Connector(m);
    assert m.journal - {iface} == map[];
    ghost var first, state, dropped;
    ok, first, state := c.Recover(id, found, false, iface, base);
    ok, dropped, state := c.Connect(id, found, b, asDefault, iface, base);
  }

  /** A new process adopts the bearer of a modem that it does not track yet. */
  method Adopt(s: Snapshot, id: string, up: Bearer, fallback: bool, ghost base: Table) returns (c: Connector)
    requires id != "" && up.iface != "" && Proper(s.table) && StoppedFor(s, up, Origin(base, map[], id))
    ensures fresh(c) && fresh(c.m) && c.m.reliable && c.Valid() && c.connections.Keys == {id} && Undoable(c.Now(), id)
    ensures TableWithout(c.m.table, c.connections[id]) == base <==> Survives(s.table, up, base, fallback)
    ensures c.m.table == s.table && c.m.journal == s.journal && c.connections[id].iface == up.iface
  {
    var m := new Machine(true, s.table, s.journal);
    c := new Connector(m);
    ghost var o := Origin(base, map[], id);
    assert m.journal - {up.iface} == map[];
    ghost var first, state;
    var ok;
    ok, first, state := c.Recover(id, Up(up), fallback, up.iface, base);
    AdoptingIsQuiet(s, up, o, first, state, fallback, c.connections[id], Snapshot(m.table, m.journal));
    OnlyOneTracked(s, id, o, c.connections[id], c.connections);
    AdoptedComesBackExactlyIf(s, up, o, first, state, fallback, c.connections[id], Snapshot(m.table, m.journal));
  }

  lemma OnlyOneTracked(s: Snapshot, id: string, o: Origin, c: Conn, conns: map<string, Conn>)
    requires Covered(s, c.iface, o) && o.journal == map[] && o.modem == id != "" && Tidy(c)
    requires conns == map[id := c]
    ensures AllTidy(conns) && Owned(s.journal, conns) && "" !in conns && conns.Keys == {id}
  {
    forall name | name in s.journal ensures OwnedBy(s.journal[name], name, conns) {
      assert name == c.iface && s.journal[name].modem == id;
    }
  }

  lemma NothingElse(s: State, id: string, u: State)
    requires s.conns.Keys == {id} && s.journal.Keys <= {s.conns[id].iface} && Disconnects(s, id, u)
    ensures u.table == TableWithout(s.table, s.conns[id]) && u.conns == map[] && u.journal == map[]
  {
    var c := s.conns[id];
    assert forall x :: !Rewrites(s.conns, x, c);
    forall name: string ensures name !in u.journal {
      assert !c.isDefault ==> EqualAt(u.journal, s.journal - {c.iface}, name);
    }
  }

  /**
   With the bearer still up, the new process adopts it and lets it go before it
   connects again. The table is the one before the takeover, exactly if the
   preferences ask for a default route, nothing had been moved yet, or one of
   the bearer's own routes was already there; the entry is gone in any case.
   */
  method ConnectAfterAdoption(s: Snapshot, id: string, up: Bearer, fallback: bool, b: Bearer, asDefault: bool,
                              ghost base: Table)
    returns (c: Connector, ok: bool, ghost left: Table)
    requires id != "" && up.iface != "" && Proper(s.table) && StoppedFor(s, up, Origin(base, map[], id))
    ensures c.Valid() && Connects(State(left, map[], map[]), id, b, asDefault, c.Now())
    ensures left == base <==> Survives(s.table, up, base, fallback)
  {
    c := Adopt(s, id, up, fallback, base);
    ghost var adopted, dropped, state := c.Now(), c.Now(), None;
    ok, dropped, state := c.Connect(id, Up(up), b, asDefault, up.iface, base);
    NothingElse(adopted, id, dropped);
    left := dropped.table;
  }

  /** A bearer that is up but was not adopted is cleaned up whatever its flag: the table is always the one before. */
  method ConnectWithoutAdoption(s: Snapshot, id: string, up: Bearer, b: Bearer, asDefault: bool, ghost base: Table)
    returns (c: Connector, ok: bool)
    requires id != "" && Proper(s.table) && StoppedFor(s, up, Origin(base, map[], id))
    ensures c.Valid() && Connects(State(base, map[], map[]), id, b, asDefault, c.Now())
  {
    var m := new Machine(true, s.table, s.journal);
    c := new Connector(m);
    assert m.journal - {up.iface} == map[];
    ghost var dropped, state;
    ok, dropped, state := c.Connect(id, Up(up), b, asDefault, up.iface, base);
    CleanedUpAfterStop(s, up, Origin(base, map[], id), state);
  }

  /** A connection without routes that is not the default leaves nothing but takes its entry with it. */
  lemma OnlyDropsEntry(t: Table, entry: Entry, id: string, c: Conn)
    requires c.routes == [] && !c.isDefault
    ensures Disconnects(State(t, map[c.iface := entry], map[id := c]), id, State(t, map[], map[]))
  {
    var s := State(t, map[c.iface := entry], map[id := c]);
    assert s.journal - {c.iface} == map[] && AllHeirs(s.conns, c) - {id} == map[];
  }

  /**
   Such a stop: the host's route has been moved, none of the bearer's own is
   there yet, and the preferences do not ask for a default route. The adopted
   connection is taken for a secondary one, and with it goes the entry.
   */
  lemma MovedRouteIsLost() returns (s: Snapshot, up: Bearer, o: Origin, c: Conn, u: State)
    ensures StoppedFor(s, up, o) && !Survives(s.table, up, o.table, false)
    ensures LeastOn(s.table, up.iface, None) && Adopts(s, o.modem, up, None, false, c, s)
    ensures Disconnects(State(s.table, s.journal, map[o.modem := c]), o.modem, u)
    ensures u.table != o.table && u.journal == map[] && u.conns == map[]
  {
    var host := Route("eth0", 2, STATIC_PROTOCOL, 0, NoAddr, NoAddr, 5);
    var change := Change(host, host.(metric := 16));
    var base: Table := map[SlotOf(host) := host];
    up := Bearer("wwan0", [Link(2, NoAddr, NoAddr)]);
    var entry := Entry("modem", RoutesFor(up, DEFAULT_METRIC), [change]);
    o := Origin(base, map[], "modem");
    assert [change][..0] == [] && MovedAll(base, []) == base;
    assert MovedAll(base, [change]) == Moved(base, change) == map[Slot(2, 16) := change.replacement];
    s := Snapshot(map[Slot(2, 16) := change.replacement], map["wwan0" := entry]);
    MovedIsBetween(base, entry);
    assert o.journal["wwan0" := entry] == s.journal;
    c := Conn("wwan0", [], 0, false, [change]);
    u := State(s.table, map[], map[]);
    OnlyDropsEntry(s.table, entry, "modem", c);
    assert Slot(2, 5) in base && Slot(2, 5) !in s.table;
  }
}
