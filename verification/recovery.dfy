/** Recovery of journalled takeovers after a stop, a failed connect or a disconnect. */
module Recovery {
  import opened Routes
  import opened Undo
  import opened Machines
  import opened Takeover

  /** Deletes from the last route to the first, going on after a failure. */
  method DeleteDefaultRoutes(m: Machine, routes: seq<Route>, ghost n: nat, ghost good: Snapshot -> bool)
    returns (ok: bool)
    modifies m
    ensures m.journal == old(m.journal) && old(m.trace) <= m.trace && (old(Proper(m.table)) ==> Proper(m.table))
    ensures ok || m.reliable ==> ok && m.table == RemovedAll(old(m.table), routes)
    ensures Keeps(good, RouteSet(routes)) && old(Good(m, n, good)) ==> Good(m, n, good)
  {
    ok := true;
    var i := |routes|;
    assert routes[..i] == routes;
    while i > 0
      invariant 0 <= i <= |routes|
      invariant m.journal == old(m.journal) && old(m.trace) <= m.trace && (old(Proper(m.table)) ==> Proper(m.table))
      invariant ok ==> RemovedAll(m.table, routes[..i]) == RemovedAll(old(m.table), routes)
      invariant m.reliable ==> ok
      invariant Keeps(good, RouteSet(routes)) && old(Good(m, n, good)) ==> Good(m, n, good)
    {
      i := i - 1;
      assert routes[..i + 1][..i] == routes[..i];
      assert routes[i] in RouteSet(routes);
      ghost var step := Done(m.table, Drop(routes[i]));
      var deleted := m.DeleteDefaultRoute(routes[i]);
      ok := ok && deleted.Applied?;
    }
  }

  /** The routes that the table holds. */
  function Existing(routes: seq<Route>, seen: Table): seq<Route>
    decreases |routes|
  {
    if routes == [] then [] else
      var n := |routes| - 1;
      Existing(routes[..n], seen) + if Holds(seen, routes[n]) then [routes[n]] else []
  }

  method ExistingDefaultRoutes(routes: seq<Route>, current: seq<Route>, ghost seen: Table)
    returns (existing: seq<Route>)
    requires Proper(seen) && Lists(current, seen)
    ensures existing == Existing(routes, seen)
  {
    existing := [];
    for i := 0 to |routes|
      invariant existing == Existing(routes[..i], seen)
    {
      assert routes[..i + 1][..i] == routes[..i];
      ListedExists(routes[i], current, seen);
      if Exists(routes[i], current) {
        existing := existing + [routes[i]];
      }
    }
    assert routes[..|routes|] == routes;
  }

  lemma {:induction false} ExistingAre(routes: seq<Route>, seen: Table)
    ensures forall r :: r in Existing(routes, seen) <==> r in routes && Holds(seen, r)
    ensures RouteSet(Existing(routes, seen)) <= RouteSet(routes)
    decreases |routes|
  {
    if routes != [] {
      var n := |routes| - 1;
      ExistingAre(routes[..n], seen);
      assert forall r :: r in routes <==> r in routes[..n] || r == routes[n];
    }
    forall r | r in RouteSet(Existing(routes, seen)) ensures r in RouteSet(routes) {
      assert r in Existing(routes, seen);
      var i :| 0 <= i < |routes| && routes[i] == r;
    }
  }

  /** Deleting only the routes the dump shows deletes as much as deleting all of them. */
  lemma RemovedExisting(t: Table, routes: seq<Route>)
    requires Proper(t)
    ensures RemovedAll(t, Existing(routes, t)) == RemovedAll(t, routes)
  {
    var existing := Existing(routes, t);
    ExistingAre(routes, t);
    RemovedAllSlots(t, existing);
    RemovedAllSlots(t, routes);
    forall s | s in t ensures t[s] in StoredSet(existing) <==> t[s] in StoredSet(routes) {
      if i :| 0 <= i < |routes| && Stored(routes[i]) == t[s] {
        assert routes[i] in existing;
        var j :| 0 <= j < |existing| && existing[j] == routes[i];
      }
      if i :| 0 <= i < |existing| && Stored(existing[i]) == t[s] {
        assert existing[i] in existing;
        var j :| 0 <= j < |routes| && routes[j] == existing[i];
      }
    }
    assert RemovedAll(t, existing).Keys == RemovedAll(t, routes).Keys;
  }

  /** Deletes those of the preferred routes that a listing of seen has shown. */
  method DeletePreferred(m: Machine, preferred: seq<Route>, current: seq<Route>,
                         ghost seen: Table, ghost n: nat, ghost good: Snapshot -> bool)
    returns (ok: bool)
    requires Proper(m.table) && Proper(seen) && Lists(current, seen)
    modifies m
    ensures m.journal == old(m.journal) && old(m.trace) <= m.trace && Proper(m.table)
    ensures ok || m.reliable ==> ok && m.table == RemovedAll(old(m.table), Existing(preferred, seen))
    ensures Keeps(good, RouteSet(preferred)) && old(Good(m, n, good)) ==> Good(m, n, good)
  {
    var existing := ExistingDefaultRoutes(preferred, current, seen);
    ExistingAre(preferred, seen);
    RemovedAllSlots(m.table, existing);
    ok := DeleteDefaultRoutes(m, existing, n, good);
  }

  /** Recovery by an entry, when the preferred routes are looked up in an earlier table. */
  function RecoveredAs(t: Table, e: Entry, seen: Table): Table {
    UndoneAll(RemovedAll(t, Existing(e.preferred, seen)), e.changes)
  }

  /** Deletes the preferred routes still there, undoes the changes and only then drops the entry. */
  method RestoreStaleState(m: Machine, iface: string, entry: Entry, current: seq<Route>,
                           ghost seen: Table, ghost o: Origin)
    returns (ok: bool)
    requires Proper(m.table) && Proper(seen) && Lists(current, seen)
    modifies m
    ensures old(m.trace) <= m.trace && (m.journal == old(m.journal) || m.journal == old(m.journal) - {iface})
    ensures Proper(m.table)
    ensures ok ==> m.table == RecoveredAs(old(m.table), entry, seen) && m.journal == old(m.journal) - {iface}
    ensures m.reliable && UndoSucceeds(RemovedAll(old(m.table), Existing(entry.preferred, seen)), entry.changes) ==> ok
    ensures var safe := IsEntryOf(iface, entry, o) && old(Recoverable(iface, entry, o)(Snapshot(m.table, m.journal)));
      old(m.table) == seen && safe ==> Good(m, |old(m.trace)|, CoveredBy(iface, o))
  {
    ghost var n, t := |m.trace|, m.table;
    ghost var safe := t == seen && IsEntryOf(iface, entry, o) && Recoverable(iface, entry, o)(Snapshot(t, m.journal));
    var undone := UndoEntry(m, iface, entry, current, seen, o);
    if safe {
      GoodIsCovered(m, n, iface, entry, o);
      RemovedExisting(t, entry.preferred);
      RecoveryRestores(t, o.table, entry);
    }
    if !undone {
      return false;
    }
    var dropped := m.DeleteRouteState(iface);
    ok := dropped.Applied?;
  }

  /** The table part of it: the entry is still there, so the state stays recoverable by it. */
  method UndoEntry(m: Machine, ghost iface: string, entry: Entry, current: seq<Route>,
                   ghost seen: Table, ghost o: Origin)
    returns (ok: bool)
    requires Proper(m.table) && Proper(seen) && Lists(current, seen)
    modifies m
    ensures m.journal == old(m.journal) && old(m.trace) <= m.trace && Proper(m.table)
    ensures ok ==> m.table == RecoveredAs(old(m.table), entry, seen)
    ensures m.reliable && UndoSucceeds(RemovedAll(old(m.table), Existing(entry.preferred, seen)), entry.changes) ==> ok
    ensures Fits(o.table, entry) && old(Recoverable(iface, entry, o)(Snapshot(m.table, m.journal))) ==>
              Good(m, |old(m.trace)|, Recoverable(iface, entry, o))
  {
    ghost var n, good := |m.trace|, Recoverable(iface, entry, o);
    if Fits(o.table, entry) { RecoverableIsKept(iface, entry, o); }
    var deleted := DeletePreferred(m, entry.preferred, current, seen, n, good);
    if !deleted {
      return false;
    }
    ok := RestoreDefaultRoutes(m, entry.changes, n, good);
  }

  /** The entry can be that of a takeover on the interface which started from o. */
  ghost predicate IsEntryOf(iface: string, entry: Entry, o: Origin) {
    iface !in o.journal && entry.modem == o.modem && Fits(o.table, entry)
  }

  // ----- which entries a recovery takes up -----

  datatype Target = Target(modem: string, ifaces: set<string>) {
    predicate Scoped() {
      modem != "" || ifaces != {}
    }

    predicate Matches(iface: string, entry: Entry) {
      if modem != "" && entry.modem != "" then entry.modem == modem else iface in ifaces
    }

    /** Without a scope, an entry whose connection still has a route in place is left alone. */
    predicate Selects(iface: string, entry: Entry, current: seq<Route>) {
      if Scoped() then Matches(iface, entry)
      else !exists i :: 0 <= i < |entry.preferred| && Exists(entry.preferred[i], current)
    }

    /** The same, asked of the table. */
    predicate Picks(iface: string, entry: Entry, t: Table) {
      if Scoped() then Matches(iface, entry)
      else forall i :: 0 <= i < |entry.preferred| ==> !Holds(t, entry.preferred[i])
    }
  }

  lemma SelectsWhatItPicks(target: Target, iface: string, entry: Entry, current: seq<Route>, t: Table)
    requires Proper(t) && Lists(current, t)
    ensures target.Selects(iface, entry, current) <==> target.Picks(iface, entry, t)
  {
    forall i | 0 <= i < |entry.preferred|
      ensures Exists(entry.preferred[i], current) <==> Holds(t, entry.preferred[i])
    {
      ListedExists(entry.preferred[i], current, t);
    }
  }

  /** A recovery for a modem takes up its entries, and on the given interfaces those without an owner. */
  lemma TakenUpForModem(modem: string, ifaces: set<string>, iface: string, entry: Entry, t: Table)
    requires modem != ""
    ensures Target(modem, ifaces).Picks(iface, entry, t) <==>
      entry.modem == modem || (entry.modem == "" && iface in ifaces)
  {
  }

  /** One for nobody takes up the entries that have no route in place, and so deletes none. */
  lemma TakenUpForNobody(iface: string, entry: Entry, t: Table)
    ensures Target("", {}).Picks(iface, entry, t) <==> Existing(entry.preferred, t) == []
    ensures Target("", {}).Picks(iface, entry, t) ==> RecoveredAs(t, entry, t) == UndoneAll(t, entry.changes)
  {
    ExistingAre(entry.preferred, t);
    forall i | 0 <= i < |entry.preferred| && Holds(t, entry.preferred[i]) ensures Existing(entry.preferred, t) != [] {
      assert entry.preferred[i] in Existing(entry.preferred, t);
    }
    if Existing(entry.preferred, t) != [] {
      var r := Existing(entry.preferred, t)[0];
      assert r in Existing(entry.preferred, t);
    }
  }

  ghost predicate SelectsOnly(target: Target, journal: map<string, Entry>, t: Table, iface: string) {
    forall name :: name in journal && target.Picks(name, journal[name], t) ==> name == iface
  }

  ghost predicate SelectsNone(target: Target, journal: map<string, Entry>, t: Table) {
    forall name :: name in journal ==> !target.Picks(name, journal[name], t)
  }

  /** What taking up the selected entries one after the other makes of the table that was listed at the start. */
  function RecoveredInTurn(order: seq<string>, s: Snapshot, target: Target): Table
    requires forall name :: name in order ==> name in s.journal
    decreases |order|
  {
    if order == [] then s.table else
      var n := |order| - 1;
      var t, e := RecoveredInTurn(order[..n], s, target), s.journal[order[n]];
      if target.Picks(order[n], e, s.table) then RecoveredAs(t, e, s.table) else t
  }

  /** The journal without the selected entries among names. */
  function Unpicked(names: set<string>, s: Snapshot, target: Target): map<string, Entry> {
    map name | name in s.journal && !(name in names && target.Picks(name, s.journal[name], s.table)) :: s.journal[name]
  }

  /** Every entry has been taken up in the order, and the last call worked. */
  ghost predicate InTurn(order: seq<string>, s: Snapshot, target: Target, t: Table, journal: map<string, Entry>) {
    && (forall name :: name in order ==> name in s.journal)
    && t == RecoveredInTurn(order, s, target)
    && journal == Unpicked((set name | name in order), s, target)
  }

  lemma NoneInTurn(s: Snapshot, target: Target)
    ensures InTurn([], s, target, s.table, s.journal)
  {
    var none: seq<string> := [];
    assert (set name | name in none) == {};
    assert Unpicked({}, s, target) == s.journal;
  }

  lemma NextInTurn(order: seq<string>, s: Snapshot, target: Target, name: string, t: Table, journal: map<string, Entry>)
    requires InTurn(order, s, target, t, journal) && name in s.journal && name !in order
    ensures var picks, e := target.Picks(name, s.journal[name], s.table), s.journal[name];
      if picks then InTurn(order + [name], s, target, RecoveredAs(t, e, s.table), journal - {name})
      else InTurn(order + [name], s, target, t, journal)
  {
    assert (order + [name])[..|order|] == order;
    assert (set x | x in order + [name]) == (set x | x in order) + {name};
    assert Unpicked((set x | x in order) + {name}, s, target) ==
           if target.Picks(name, s.journal[name], s.table) then journal - {name} else journal;
  }

  ghost predicate AnyPicked(order: seq<string>, s: Snapshot, target: Target) {
    exists name :: name in order && name in s.journal && target.Picks(name, s.journal[name], s.table)
  }

  /** One interface's entry at most is selected, and it covers the state. */
  ghost predicate Single(s: Snapshot, target: Target, iface: string, o: Origin) {
    SelectsOnly(target, s.journal, s.table, iface) && Covered(s, iface, o)
  }

  /** The interface's entry has been taken up. */
  ghost predicate AfterEntry(m: Machine, n: nat, start: Snapshot, iface: string, o: Origin, ok: bool)
    reads m
  {
    && (m.journal == start.journal || m.journal == start.journal - {iface})
    && Good(m, n, CoveredBy(iface, o)) && (m.reliable ==> ok)
    && (ok ==> m.table == o.table && m.journal == o.journal)
  }

  /** The entries of order have been taken up, or passed over. */
  ghost predicate Visited(m: Machine, trace: seq<Snapshot>, start: Snapshot, order: seq<string>, target: Target,
                          iface: string, o: Origin, ok: bool)
    reads m
  {
    && Proper(m.table) && trace <= m.trace
    && (ok ==> InTurn(order, start, target, m.table, m.journal))
    && if AnyPicked(order, start, target)
       then Single(start, target, iface, o) ==> AfterEntry(m, |trace|, start, iface, o, ok)
       else m.table == start.table && m.journal == start.journal && m.trace == trace && ok
  }

  lemma PickedAppend(order: seq<string>, s: Snapshot, target: Target, name: string)
    requires name in s.journal
    ensures AnyPicked(order + [name], s, target) <==>
      AnyPicked(order, s, target) || target.Picks(name, s.journal[name], s.table)
  {
    assert forall x :: x in order + [name] <==> x in order || x == name;
  }

  /** Only the one entry can be picked, so nothing has been touched before it. */
  lemma SinglePicked(order: seq<string>, s: Snapshot, target: Target, name: string, iface: string, o: Origin)
    requires Single(s, target, iface, o) && name in s.journal && target.Picks(name, s.journal[name], s.table)
    requires name !in order
    ensures name == iface && !AnyPicked(order, s, target)
  {
  }

  method Visit(m: Machine, name: string, entry: Entry, current: seq<Route>, target: Target,
               ghost trace: seq<Snapshot>, ghost start: Snapshot, ghost order: seq<string>,
               ghost iface: string, ghost o: Origin, ghost done: bool)
    returns (ok: bool)
    requires Proper(start.table) && Lists(current, start.table)
    requires name in start.journal && entry == start.journal[name] && name !in order
    requires Visited(m, trace, start, order, target, iface, o, done)
    modifies m
    ensures Visited(m, trace, start, order + [name], target, iface, o, done && ok)
  {
    SelectsWhatItPicks(target, name, entry, current, start.table);
    PickedAppend(order, start, target, name);
    if done { NextInTurn(order, start, target, name, m.table, m.journal); }
    if !target.Selects(name, entry, current) {
      return true;
    }
    if Single(start, target, iface, o) {
      SinglePicked(order, start, target, name, iface, o);
      RemovedExisting(m.table, entry.preferred);
      RecoveryRestores(m.table, o.table, entry);
    }
    ok := RestoreStaleState(m, name, entry, current, start.table, o);
  }

  ghost predicate NoneTwice(order: seq<string>) {
    forall i, j :: 0 <= i < j < |order| ==> order[i] != order[j]
  }

  /**
   Takes up every selected entry, in whatever order. When only one interface's
   entry is selected, a covered state stays covered throughout and a successful
   run ends in the original state; with none selected nothing changes.
   */
  method RestoreStaleStates(m: Machine, target: Target, ghost iface: string, ghost o: Origin)
    returns (ok: bool, ghost order: seq<string>)
    requires Proper(m.table)
    modifies m
    ensures Proper(m.table) && old(m.trace) <= m.trace
    ensures ok ==>
      && (forall name :: name in order <==> name in old(m.journal)) && NoneTwice(order)
      && InTurn(order, old(Snapshot(m.table, m.journal)), target, m.table, m.journal)
    ensures old(SelectsNone(target, m.journal, m.table)) ==>
      m.table == old(m.table) && m.journal == old(m.journal) && m.trace == old(m.trace) && (m.reliable ==> ok)
    ensures var s := old(Snapshot(m.table, m.journal));
      Single(s, target, iface, o) ==>
        && (m.journal == s.journal || m.journal == s.journal - {iface})
        && Good(m, |old(m.trace)|, CoveredBy(iface, o)) && (m.reliable ==> ok)
        && (ok && iface in s.journal && target.Picks(iface, s.journal[iface], s.table) ==>
              m.table == o.table && m.journal == o.journal)
  {
    ghost var start := Snapshot(m.table, m.journal);
    order := [];
    NoneInTurn(start, target);
    if m.journal == map[] {
      return true, [];
    }
    var current, listed := m.DefaultRoutes();
    if !listed.Applied? {
      return false, [];
    }
    ok := true;
    var entries, left := m.journal, m.journal.Keys;
    while left != {}
      invariant left <= entries.Keys && NoneTwice(order)
      invariant forall name :: name in order <==> name in entries && name !in left
      invariant Visited(m, old(m.trace), start, order, target, iface, o, ok)
      decreases |left|
    {
      var name :| name in left;
      left := left - {name};
      var restored := Visit(m, name, entries[name], current, target, old(m.trace), start, order, iface, o, ok);
      order, ok := order + [name], ok && restored;
    }
  }
}
