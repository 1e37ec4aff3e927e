/**
 In a run with one default connection, whose entry is the one its connect
 wrote, letting go of it is as safe against a stop as the takeover was.
 */
module Leaning {
  import opened Routes
  import opened Undo
  import opened Machines
  import opened Takeover
  import opened Demotion
  import opened Connections
  import opened Tracking
  import opened Connecting
  import opened Bearers
  import opened Adoption
  import opened Connectors

  /** The entry names the connection's routes, and the host has none of them. */
  ghost predicate OwnEntry(s: State, base: Table, id: string) {
    && id in s.conns && s.conns[id].changes != []
    && s.conns[id].iface in s.journal
    && StoredSet(s.journal[s.conns[id].iface].preferred) == StoredSet(s.conns[id].routes)
    && NoneHeld(base, s.conns[id].routes)
  }

  /** The table without the connection: the host's own, and the others' routes. */
  lemma RestIsLaid(s: State, base: Table, families: seq<int>, id: string)
    requires Inv(s, base, families, [id])
    ensures Laid(TableWithout(s.table, s.conns[id]), base, Tracked(s.conns - {id}))
    ensures Tracked(s.conns) == Tracked(s.conns - {id}) + StoredSet(s.conns[id].routes)
  {
    assert IsTop([id], id);
    FlagOf(s.conns[id]);
    LastTableRemoved(s.conns, base, families, id, s.table);
    FormedApart(s.conns, id);
    TrackedWithout(s.conns, id);
  }

  lemma OthersRoutes(conns: map<string, Conn>, id: string)
    requires AllFormed(conns) && id in conns
    ensures Tracked(conns - {id}) !! StoredSet(conns[id].routes)
  {
    FormedApart(conns, id);
    TrackedWithout(conns, id);
  }

  lemma PlanFitsRest(w: Table, base: Table, cs: seq<Change>, tracked: set<Route>)
    requires Planned(base, cs) && Laid(w, base, tracked)
    requires forall r :: r in tracked ==> SlotOf(r) !in MovedAll(base, cs)
    ensures Planned(w, cs)
  {
    MovedAllSlots(base, cs);
    forall i | 0 <= i < |cs| ensures Holds(w, cs[i].original) && SlotOf(cs[i].replacement) !in w {
      assert Holds(base, cs[i].original) && SlotOf(cs[i].replacement) in Replacements(cs);
    }
  }

  lemma RestIsBefore(t: Table, w: Table, base: Table, cs: seq<Change>, tracked: set<Route>, own: set<Route>)
    requires Planned(base, cs) && Laid(w, base, tracked) && Laid(t, MovedAll(base, cs), tracked + own)
    ensures Between(t, w, cs, own + ReplacementSet(cs))
  {
    MovedRoutes(base, cs);
    assert tracked <= tracked + own;
  }

  lemma NoneOfItsOwn(w: Table, base: Table, tracked: set<Route>, routes: seq<Route>, preferred: seq<Route>)
    requires Laid(w, base, tracked) && tracked !! StoredSet(routes) && NoneHeld(base, routes)
    requires StoredSet(preferred) == StoredSet(routes)
    ensures forall s :: s in w ==> w[s] !in StoredSet(preferred)
  {
  }

  lemma BackedByParts(s: Snapshot, iface: string, entry: Entry, o: Origin, routes: seq<Route>)
    requires iface !in o.journal && entry.modem == o.modem && s.journal == o.journal[iface := entry]
    requires Fits(o.table, entry) && StoredSet(entry.preferred) == StoredSet(routes)
    requires Between(s.table, o.table, entry.changes, StoredSet(routes) + ReplacementSet(entry.changes))
    ensures Backed(s, iface, entry, o, routes, entry.changes)
  {
    NamesItsOwn(entry, []);
    forall r | r in RouteSet(routes) ensures Stored(r) in StoredSet(entry.preferred) {
      assert Stored(r) in StoredSet(routes);
    }
  }

  lemma LeansByParts(s: Snapshot, id: string, c: Conn)
    requires c.iface in s.journal && s.journal[c.iface].modem == id && s.journal[c.iface].changes == c.changes
    requires StoredSet(s.journal[c.iface].preferred) == StoredSet(c.routes)
    requires Fits(TableWithout(s.table, c), s.journal[c.iface])
    requires Between(s.table, TableWithout(s.table, c), c.changes, StoredSet(c.routes) + ReplacementSet(c.changes))
    ensures Backed(s, c.iface, s.journal[c.iface], LeftBy(s, id, c), c.routes, c.changes)
  {
    assert s.journal == (s.journal - {c.iface})[c.iface := s.journal[c.iface]];
    BackedByParts(s, c.iface, s.journal[c.iface], LeftBy(s, id, c), c.routes);
  }

  /** So the entry leads back to the table without the connection, and has all that letting go deletes and restores. */
  lemma OnlyDefaultLeans(s: State, base: Table, families: seq<int>, id: string)
    requires Inv(s, base, families, [id]) && OwnEntry(s, base, id)
    ensures var c, now := s.conns[id], Snapshot(s.table, s.journal);
      c.isDefault && Backed(now, c.iface, s.journal[c.iface], LeftBy(now, id, c), c.routes, c.changes)
  {
    var c := s.conns[id];
    OnlyDefaultFlag(s, base, families, id);
    OnlyDefaultFits(s, base, families, id, TableWithout(s.table, c), s.journal[c.iface]);
    LeansByParts(Snapshot(s.table, s.journal), id, c);
  }

  lemma OnlyDefaultFlag(s: State, base: Table, families: seq<int>, id: string)
    requires Inv(s, base, families, [id]) && OwnEntry(s, base, id)
    ensures s.conns[id].isDefault && Displaced(base, families, s.conns[id].changes)
    ensures var e := s.journal[s.conns[id].iface]; e.modem == id && e.changes == s.conns[id].changes
  {
    assert IsTop([id], id) && Recorded(s.journal, id, s.conns[id]);
    FlagOf(s.conns[id]);
  }

  lemma OnlyDefaultFits(s: State, base: Table, families: seq<int>, id: string, w: Table, entry: Entry)
    requires Inv(s, base, families, [id]) && OwnEntry(s, base, id)
    requires w == TableWithout(s.table, s.conns[id]) && entry == s.journal[s.conns[id].iface]
    ensures Fits(w, entry)
    ensures Between(s.table, w, entry.changes, StoredSet(s.conns[id].routes) + ReplacementSet(entry.changes))
  {
    var c, rest := s.conns[id], Tracked(s.conns - {id});
    OnlyDefaultFlag(s, base, families, id);
    RestIsLaid(s, base, families, id);
    OthersRoutes(s.conns, id);
    NoneOfItsOwn(w, base, rest, c.routes, entry.preferred);
    RestIsBefore(s.table, w, base, c.changes, rest, StoredSet(c.routes));
    forall r | r in rest ensures SlotOf(r) !in MovedAll(base, c.changes) {
      assert r in Tracked(s.conns);
    }
    PlanFitsRest(w, base, c.changes, rest);
  }

  /** The first default connection of a run that moves anything has such an entry. */
  lemma FirstDefaultOwns(s: State, base: Table, families: seq<int>, id: string, b: Bearer, current: seq<Route>)
    requires Inv(s, base, families, []) && Fresh(s.conns, id, b) && OneLinkEach(b, families) && Lists(current, s.table)
    requires forall i :: 0 <= i < |families| ==> !Holds(s.table, RoutesFor(b, DEFAULT_METRIC)[i])
    requires Changes(current, RoutesFor(b, DEFAULT_METRIC)) != []
    ensures var u := ConnectedAsDefault(s, id, b, current); Inv(u, base, families, [id]) && OwnEntry(u, base, id)
  {
    var routes := RoutesFor(b, DEFAULT_METRIC);
    DefaultConnectKeeps(s, base, families, [], id, b, current);
    TakeoverClears(s.table, b, families, current);
    assert [] + [id] == [id];
    forall slot | slot in base ensures base[slot] !in StoredSet(routes) {
      forall i | 0 <= i < |routes| ensures base[slot] != Stored(routes[i]) {
        assert !Holds(s.table, routes[i]);
      }
    }
  }

  /** Letting go of it is covered at every stop, unless one of its routes could not be deleted. */
  method LetGo(c: Connector, id: string, ghost base: Table, ghost families: seq<int>)
    returns (ok: bool, ghost stuck: bool)
    requires id != "" && c.Valid() && Inv(c.Now(), base, families, [id]) && OwnEntry(c.Now(), base, id)
    modifies c`connections, c.m
    ensures var now, conn := old(Snapshot(c.m.table, c.m.journal)), old(c.connections)[id];
      KeepsCover(c.m, |old(c.m.trace)|, conn.iface, LeftBy(now, id, conn), stuck)
    ensures ok ==> c.Valid() && Disconnects(old(c.Now()), id, c.Now())
    ensures c.m.reliable ==> ok && !stuck
  {
    OnlyDefaultLeans(c.Now(), base, families, id);
    AlwaysUndoable(c.Now(), base, families, [id], id);
    ghost var state;
    ok, stuck, state := c.Disconnect(id, NoBearer, "", map[]);
  }
}
