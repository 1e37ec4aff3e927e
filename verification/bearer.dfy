/** Configuring a bearer's routes: the takeover, the routes themselves, and the rollback of a failed attempt. */
module Bearers {
  import opened Routes
  import opened Undo
  import opened Demotion
  import opened Machines
  import opened Takeover
  import opened Recovery
  import opened Connections

  /** u is t but for some of the routes. */
  ghost predicate Thinned(t: Table, routes: set<Route>, u: Table) {
    && (forall s :: s in u ==> (s in t && u[s] == t[s]) || InSlot(routes, u[s]))
    && (forall s :: s in t && (s !in u || u[s] != t[s]) ==> InSlot(routes, t[s]))
  }

  ghost predicate InSlot(routes: set<Route>, r: Route) {
    exists x :: x in routes && Stored(x) == r
  }

  /** The entry is gone only because every change was undone. */
  ghost predicate UndoneBefore(t: Table, routes: seq<Route>, changes: seq<Change>, u: Table) {
    exists mid ::
      && Proper(mid) && Thinned(t, RouteSet(routes), mid)
      && UndoSucceeds(mid, changes) && u == UndoneAll(mid, changes)
  }

  /** The entry covers the state, and has the routes and the changes. */
  ghost predicate Backed(s: Snapshot, iface: string, entry: Entry, o: Origin, routes: seq<Route>,
                         changes: seq<Change>) {
    && IsEntryOf(iface, entry, o) && Recoverable(iface, entry, o)(s)
    && Names(entry, RouteSet(routes)) && Names(entry, RoutesOf(changes))
  }

  /** What letting go of c leaves. */
  ghost function LeftBy(s: Snapshot, id: string, c: Conn): Origin {
    Origin(TableWithout(s.table, c), s.journal - {c.iface}, id)
  }

  /**
   A stop has always been covered, exactly if the entry is not lost: it is
   there, or the table is the original one.
   */
  ghost predicate CoveredUnlessLost(m: Machine, n: nat, iface: string, o: Origin)
    reads m
  {
    Good(m, n, CoveredBy(iface, o)) <==> (iface in m.journal || m.table == o.table)
  }

  /** And it has been, unless an added route could not be deleted. */
  ghost predicate KeepsCover(m: Machine, n: nat, iface: string, o: Origin, stuck: bool)
    reads m
  {
    CoveredUnlessLost(m, n, iface, o) && (!stuck ==> Good(m, n, CoveredBy(iface, o)))
  }

  /** Undoes the changes and then drops the entry. */
  method CleanupDefaultRouteChanges(m: Machine, iface: string, changes: seq<Change>, ghost entry: Entry,
                                    ghost o: Origin, ghost n: nat)
    returns (ok: bool)
    requires Proper(m.table)
    modifies m
    ensures Proper(m.table) && old(m.trace) <= m.trace
    ensures m.journal == old(m.journal) || m.journal == old(m.journal) - {iface}
    ensures m.journal != old(m.journal) ==>
      UndoSucceeds(old(m.table), changes) && m.table == UndoneAll(old(m.table), changes)
    ensures ok ==>
      && m.table == UndoneAll(old(m.table), changes)
      && m.journal == if changes == [] then old(m.journal) else old(m.journal) - {iface}
    ensures changes == [] ==> m.table == old(m.table) && m.journal == old(m.journal) && m.trace == old(m.trace)
    ensures m.reliable && UndoSucceeds(old(m.table), changes) ==> ok
    ensures var good := old(Good(m, n, Recoverable(iface, entry, o)));
      good && IsEntryOf(iface, entry, o) && Names(entry, RoutesOf(changes)) ==>
        && CoveredUnlessLost(m, n, iface, o)
        && (UndoneAll(old(m.table), changes) == o.table ==> Good(m, n, CoveredBy(iface, o)))
  {
    ghost var good := Recoverable(iface, entry, o);
    ghost var safe := IsEntryOf(iface, entry, o) && Names(entry, RoutesOf(changes)) && Good(m, n, good);
    if |changes| == 0 {
      if safe { GoodIsCovered(m, n, iface, entry, o); }
      return true;
    }
    if safe { RecoverableKeeps(iface, entry, o, RoutesOf(changes)); }
    ok := RestoreDefaultRoutes(m, changes, n, good);
    if safe { GoodIsCovered(m, n, iface, entry, o); }
    if !ok {
      return;
    }
    ok := DropEntry(m, iface, entry, o, n);
  }

  /** Whether the stops are covered is decided by the table once the entry goes. */
  method DropEntry(m: Machine, iface: string, ghost entry: Entry, ghost o: Origin, ghost n: nat) returns (ok: bool)
    modifies m
    ensures m.table == old(m.table) && old(m.trace) <= m.trace && (m.reliable ==> ok)
    ensures m.journal == if ok then old(m.journal) - {iface} else old(m.journal)
    ensures iface !in o.journal && (old(m.journal) == o.journal[iface := entry] || old(m.journal) == o.journal) ==>
      old(CoveredUnlessLost(m, n, iface, o)) ==> CoveredUnlessLost(m, n, iface, o)
  {
    if iface !in o.journal { DroppedIsCovered(m.table, iface, entry, o); }
    var dropped := m.DeleteRouteState(iface);
    ok := dropped.Applied?;
  }

  /**
   Deletes the routes, undoes the changes and drops the entry; going on after a
   failed delete, which is then stuck. Only for that can the entry be lost.
   */
  method CleanupApplied(m: Machine, iface: string, routes: seq<Route>, changes: seq<Change>,
                        ghost entry: Entry, ghost o: Origin)
    returns (ok: bool, ghost stuck: bool)
    requires Proper(m.table)
    modifies m
    ensures Proper(m.table) && (m.journal == old(m.journal) || m.journal == old(m.journal) - {iface})
    ensures m.journal != old(m.journal) ==> UndoneBefore(old(m.table), routes, changes, m.table)
    ensures ok ==>
      && m.table == UndoneAll(RemovedAll(old(m.table), routes), changes)
      && m.journal == if changes == [] then old(m.journal) else old(m.journal) - {iface}
    ensures changes == [] ==> m.journal == old(m.journal)
    ensures routes == [] && changes == [] ==> m.table == old(m.table) && m.trace == old(m.trace)
    ensures m.reliable && UndoSucceeds(RemovedAll(old(m.table), routes), changes) ==> ok
    ensures old(m.trace) <= m.trace && (stuck ==> !ok && !m.reliable && routes != [])
    ensures Backed(old(Snapshot(m.table, m.journal)), iface, entry, o, routes, changes) ==>
      && CoveredUnlessLost(m, |old(m.trace)|, iface, o)
      && (!stuck && UndoneAll(RemovedAll(old(m.table), routes), changes) == o.table ==>
            Good(m, |old(m.trace)|, CoveredBy(iface, o)))
  {
    ghost var n := |m.trace|;
    if Backed(Snapshot(m.table, m.journal), iface, entry, o, routes, changes) {
      RecoverableKeeps(iface, entry, o, RouteSet(routes));
    }
    RemovedAllSlots(m.table, routes);
    ok := DeleteRoutes(m, routes, n, Recoverable(iface, entry, o));
    stuck := !ok;
    var undone := CleanupDefaultRouteChanges(m, iface, changes, entry, o, n);
    ok := ok && undone;
  }

  lemma DroppedIsCovered(t: Table, iface: string, entry: Entry, o: Origin)
    requires iface !in o.journal
    ensures o.journal[iface := entry] - {iface} == o.journal
    ensures Covered(Snapshot(t, o.journal), iface, o) <==> t == o.table
  {
  }

  lemma ThinnedIsKept(t: Table, routes: set<Route>)
    ensures Keeps((s: Snapshot) => Proper(s.table) && Thinned(t, routes, s.table), routes)
  {
    forall u: Table, op: Op | Proper(u) && Thinned(t, routes, u) && op.r in routes
      ensures Proper(Done(u, op)) && Thinned(t, routes, Done(u, op))
    {
      ThinnedStep(t, routes, u, op);
    }
  }

  lemma ThinnedStep(t: Table, routes: set<Route>, u: Table, op: Op)
    requires Proper(u) && Thinned(t, routes, u) && op.r in routes
    ensures Proper(Done(u, op)) && Thinned(t, routes, Done(u, op))
  {
    assert InSlot(routes, Stored(op.r));
  }

  method DeleteRoutes(m: Machine, routes: seq<Route>, ghost n: nat, ghost good: Snapshot -> bool) returns (ok: bool)
    requires Proper(m.table)
    modifies m
    ensures Proper(m.table) && m.journal == old(m.journal) && Thinned(old(m.table), RouteSet(routes), m.table)
    ensures ok ==> m.table == RemovedAll(old(m.table), routes)
    ensures old(m.trace) <= m.trace && (m.reliable ==> ok)
    ensures routes == [] ==> ok && m.trace == old(m.trace)
    ensures Keeps(good, RouteSet(routes)) && old(Good(m, n, good)) ==> Good(m, n, good)
  {
    if |routes| == 0 {
      return true;
    }
    ghost var t, rs, here := m.table, RouteSet(routes), |m.trace|;
    ghost var thin := (s: Snapshot) => Proper(s.table) && Thinned(t, rs, s.table);
    ThinnedIsKept(t, rs);
    ghost var kept := Keeps(good, rs) && Good(m, n, good);
    ghost var both := (s: Snapshot) => thin(s) && (kept ==> good(s));
    assert Keeps(both, rs);
    ok := DeleteDefaultRoutes(m, routes, here, both);
  }

  /** Adds one route; on a machine where no call fails it is refused only if the routes cannot all be added. */
  method AddOne(m: Machine, routes: seq<Route>, i: nat, ghost t: Table, ghost n: nat, ghost good: Snapshot -> bool)
    returns (ok: bool)
    requires i < |routes| && IsInserted(t, routes[..i], m.table)
    modifies m
    ensures m.journal == old(m.journal) && old(m.trace) <= m.trace
    ensures if ok then IsInserted(t, routes[..i + 1], m.table) else m.table == old(m.table)
    ensures m.reliable && !ok ==> !CanInsertAll(t, routes)
    ensures Keeps(good, RouteSet(routes)) && old(Good(m, n, good)) ==> Good(m, n, good)
  {
    OneMore(t, routes, i, m.table);
    assert routes[i] in RouteSet(routes);
    ghost var step := Done(m.table, Put(routes[i]));
    var o := m.AddDefaultRoute(routes[i]);
    ok := o.Applied?;
  }

  /** Adds the routes one by one, stopping at the first that is refused or fails. */
  method AddRoutes(m: Machine, routes: seq<Route>, ghost n: nat, ghost good: Snapshot -> bool)
    returns (added: seq<Route>, ok: bool)
    modifies m
    ensures m.journal == old(m.journal) && old(m.trace) <= m.trace && added <= routes
    ensures IsInserted(old(m.table), added, m.table)
    ensures ok ==> added == routes
    ensures m.reliable ==> ok == CanInsertAll(old(m.table), routes)
    ensures Keeps(good, RouteSet(routes)) && old(Good(m, n, good)) ==> Good(m, n, good)
  {
    ghost var t := m.table;
    added, ok := [], false;
    for i := 0 to |routes|
      invariant added == routes[..i] && m.journal == old(m.journal) && old(m.trace) <= m.trace && !ok
      invariant IsInserted(t, added, m.table)
      invariant Keeps(good, RouteSet(routes)) && old(Good(m, n, good)) ==> Good(m, n, good)
    {
      var fits := AddOne(m, routes, i, t, n, good);
      if !fits {
        return;
      }
      added := routes[..i + 1];
    }
    assert routes[..|routes|] == routes;
    ok := true;
  }

  lemma RemovedLast(u: Table, r: Route)
    requires Proper(u) && SlotOf(r) !in u
    ensures Proper(Inserted(u, r)) && Removed(Inserted(u, r), r) == u
  {
  }

  /** u is t with the routes added, all of which had free slots. */
  ghost predicate IsInserted(t: Table, routes: seq<Route>, u: Table) {
    CanInsertAll(t, routes) && u == InsertedAll(t, routes)
  }

  lemma OneMore(t: Table, routes: seq<Route>, i: nat, u: Table)
    requires i < |routes| && IsInserted(t, routes[..i], u)
    ensures CanInsertAll(t, routes) ==> SlotOf(routes[i]) !in u
    ensures SlotOf(routes[i]) !in u ==> IsInserted(t, routes[..i + 1], Inserted(u, routes[i]))
  {
    if CanInsertAll(t, routes) { NextIsFree(t, routes, i); }
    if SlotOf(routes[i]) !in InsertedAll(t, routes[..i]) {
      assert routes[..i + 1][..i] == routes[..i];
      FreeInBoth(t, routes[..i], SlotOf(routes[i]));
      StillInsertable(t, routes[..i], routes[i], routes[..i + 1]);
      OneInserted(t, routes[..i], routes[i], routes[..i + 1]);
    }
  }

  lemma NextIsFree(t: Table, routes: seq<Route>, i: nat)
    requires i < |routes| && CanInsertAll(t, routes[..i]) && CanInsertAll(t, routes)
    ensures SlotOf(routes[i]) !in InsertedAll(t, routes[..i])
  {
    assert SlotOf(routes[i]) !in Slots(routes[..i]);
  }

  lemma OneInserted(t: Table, front: seq<Route>, last: Route, all: seq<Route>)
    requires all != [] && front == all[..|all| - 1] && last == all[|all| - 1]
    requires CanInsertAll(t, front) && CanInsertAll(t, all) && SlotOf(last) !in InsertedAll(t, front)
    ensures InsertedAll(t, all) == Inserted(InsertedAll(t, front), last)
  {
  }

  lemma StillInsertable(t: Table, front: seq<Route>, last: Route, all: seq<Route>)
    requires all != [] && front == all[..|all| - 1] && last == all[|all| - 1]
    requires CanInsertAll(t, front) && SlotOf(last) !in t && SlotOf(last) !in Slots(front)
    ensures CanInsertAll(t, all)
  {
    forall k | 0 <= k < |front| ensures SlotOf(all[k]) !in t && SlotOf(all[k]) != SlotOf(last) {
      assert all[k] == front[k] && SlotOf(front[k]) in Slots(front);
    }
    forall a, b | 0 <= a < b < |front| ensures SlotOf(all[a]) != SlotOf(all[b]) {
      assert all[a] == front[a] && all[b] == front[b];
    }
  }

  lemma FreeInBoth(t: Table, front: seq<Route>, slot: Slot)
    requires CanInsertAll(t, front) && slot !in InsertedAll(t, front)
    ensures slot !in t && slot !in Slots(front)
  {
  }

  /** Deleting what was added gives the table back. */
  lemma RemovedInserted(t: Table, routes: seq<Route>)
    requires Proper(t) && CanInsertAll(t, routes)
    ensures Proper(InsertedAll(t, routes)) && RemovedAll(InsertedAll(t, routes), routes) == t
    decreases |routes|
  {
    if routes != [] {
      var n := |routes| - 1;
      var u := InsertedAll(t, routes[..n]);
      RemovedInserted(t, routes[..n]);
      assert SlotOf(routes[n]) !in u;
      RemovedLast(u, routes[n]);
    }
  }

  /** Undoing a takeover with some of the preferred routes added gives the table back. */
  lemma RolledBack(t: Table, cs: seq<Change>, added: seq<Route>)
    requires Planned(t, cs) && CanInsertAll(MovedAll(t, cs), added)
    ensures var u := InsertedAll(MovedAll(t, cs), added);
      Proper(u) && UndoSucceeds(RemovedAll(u, added), cs) && UndoneAll(RemovedAll(u, added), cs) == t
  {
    MovedAllSlots(t, cs);
    RemovedInserted(MovedAll(t, cs), added);
    UndoneMoved(t, cs);
  }

  // ----- the default-route part -----

  /** The entry on the interface is one that configuring the modem's bearer recovers first. */
  ghost predicate HasOwnEntry(s: Snapshot, id: string, iface: string) {
    iface in s.journal && Target(id, {iface}).Matches(iface, s.journal[iface])
  }

  /** What is left of the journal after that. */
  ghost function Cleared(s: Snapshot, id: string, iface: string): map<string, Entry> {
    if HasOwnEntry(s, id, iface) then s.journal - {iface} else s.journal
  }

  /** base is the table once the modem's own entry, if there is one, has been recovered. */
  ghost predicate LeadsTo(s: Snapshot, id: string, iface: string, base: Table) {
    if HasOwnEntry(s, id, iface)
    then Covered(s, iface, Origin(base, s.journal - {iface}, s.journal[iface].modem))
    else s.table == base
  }

  /** Recovers what an earlier takeover of this modem left behind. */
  method RecoverOwn(m: Machine, id: string, iface: string, ghost base: Table) returns (ok: bool)
    requires Proper(m.table) && SelectsOnly(Target(id, {iface}), m.journal, m.table, iface)
    requires LeadsTo(Snapshot(m.table, m.journal), id, iface, base)
    modifies m
    ensures old(m.trace) <= m.trace && (m.reliable ==> ok)
    ensures ok ==> Proper(base) && m.table == base && m.journal == Cleared(old(Snapshot(m.table, m.journal)), id, iface)
    ensures var s := old(Snapshot(m.table, m.journal)); var o := Origin(base, Cleared(s, id, iface), id);
      iface !in o.journal && (iface in s.journal ==> s.journal[iface].modem == id) ==>
        Good(m, |old(m.trace)|, CoveredBy(iface, o))
  {
    ghost var s := Snapshot(m.table, m.journal);
    ghost var o := Origin(base, Cleared(s, id, iface), if iface in s.journal then s.journal[iface].modem else id);
    ghost var order;
    ok, order := RestoreStaleStates(m, Target(id, {iface}), iface, o);
  }

  /** The takeover will write an entry, which then is the modem's and does no harm. */
  ghost predicate WritesEntry(m: Machine, id: string, b: Bearer, base: Table)
    reads m
  {
    && SomeCompetes(base, RoutesFor(b, DEFAULT_METRIC)) && NoneHeld(base, RoutesFor(b, DEFAULT_METRIC))
    && (b.iface in m.journal ==> m.journal[b.iface].modem == id)
  }

  ghost predicate SomeCompetes(t: Table, preferred: seq<Route>) {
    exists s :: s in t && Competes(t[s], preferred)
  }

  /**
   A reliable machine ends either fully configured over the table that the
   recovery gives, or in that table itself. Where something competes, so that
   there is an entry, the journal leads back to it wherever the process stops,
   in a configuration that succeeds and in one that fails, but for an added
   route that could not be deleted again.
   */
  method ConfigureDefault(m: Machine, id: string, b: Bearer, ghost base: Table)
    returns (c: Conn, ok: bool, ghost current: seq<Route>, ghost stuck: bool)
    requires Proper(m.table) && SelectsOnly(Target(id, {b.iface}), m.journal, m.table, b.iface)
    requires LeadsTo(Snapshot(m.table, m.journal), id, b.iface, base)
    modifies m
    ensures c.iface == b.iface && c.routes == RoutesFor(b, DEFAULT_METRIC) && c.metric == DEFAULT_METRIC && c.isDefault
    ensures old(m.trace) <= m.trace && (stuck ==> !ok && !m.reliable)
    ensures var j := Cleared(old(Snapshot(m.table, m.journal)), id, b.iface);
      && (ok ==> Configured(base, j, id, b, current, m.table, m.journal, c.changes))
      && (ok && c.changes != [] ==> b.iface !in j)
      && (m.reliable && !ok ==> m.table == base && m.journal == j && (b.iface in j || Refused(base, b, current)))
    ensures old(WritesEntry(m, id, b, base)) ==>
      var o := Origin(base, Cleared(old(Snapshot(m.table, m.journal)), id, b.iface), id);
      KeepsCover(m, |old(m.trace)|, b.iface, o, stuck)
    ensures ok ==> c.metric == 10 && ServesBearer(m.table, b, c)
  {
    var preferred := RoutesFor(b, DEFAULT_METRIC);
    c := Conn(b.iface, preferred, DEFAULT_METRIC, true, []);
    current, stuck := [], false;
    ghost var n := |m.trace|;
    var restored := RecoverOwn(m, id, b.iface, base);
    if !restored {
      return c, false, [], false;
    }
    c, ok, current, stuck := TakeoverAndAdd(m, id, b, preferred, n);
    if ok { NewRoutesServe(MovedAll(base, c.changes), b, c); }
  }

  ghost predicate Configured(t: Table, j: map<string, Entry>, id: string, b: Bearer, current: seq<Route>,
                             u: Table, k: map<string, Entry>, cs: seq<Change>)
  {
    var preferred := RoutesFor(b, DEFAULT_METRIC);
    && Lists(current, t)
    && cs == Changes(current, preferred)
    && CanInsertAll(MovedAll(t, cs), preferred)
    && u == InsertedAll(MovedAll(t, cs), preferred)
    && k == if cs == [] then j else j[b.iface := Entry(id, preferred, cs)]
  }

  ghost predicate Refused(t: Table, b: Bearer, current: seq<Route>) {
    var preferred := RoutesFor(b, DEFAULT_METRIC);
    Lists(current, t) && !CanInsertAll(MovedAll(t, Changes(current, preferred)), preferred)
  }

  /** The journal holds the entry of the takeover that has just been finished. */
  ghost predicate JustTaken(s: Snapshot, iface: string, entry: Entry, o: Origin) {
    && IsEntryOf(iface, entry, o)
    && s.table == MovedAll(o.table, entry.changes)
    && s.journal == o.journal[iface := entry]
  }

  lemma JustTakenIsRecoverable(s: Snapshot, iface: string, entry: Entry, o: Origin)
    requires JustTaken(s, iface, entry, o)
    ensures Recoverable(iface, entry, o)(s)
    ensures Keeps(Recoverable(iface, entry, o), RouteSet(entry.preferred))
  {
    MovedIsBetween(o.table, entry);
    RecoverableIsKept(iface, entry, o);
  }

  /** Adds the preferred routes; wherever it stops after a takeover, the journal leads back. */
  method AddSafely(m: Machine, iface: string, entry: Entry, ghost o: Origin, ghost n: nat)
    returns (added: seq<Route>, ok: bool)
    modifies m
    ensures added <= entry.preferred
    ensures m.journal == old(m.journal) && old(m.trace) <= m.trace
    ensures IsInserted(old(m.table), added, m.table)
    ensures ok ==> added == entry.preferred
    ensures m.reliable ==> ok == CanInsertAll(old(m.table), entry.preferred)
    ensures JustTaken(old(Snapshot(m.table, m.journal)), iface, entry, o) && old(Good(m, n, CoveredBy(iface, o))) ==>
              Good(m, n, CoveredBy(iface, o))
  {
    ghost var here, good := |m.trace|, Recoverable(iface, entry, o);
    ghost var safe := JustTaken(Snapshot(m.table, m.journal), iface, entry, o);
    if safe { JustTakenIsRecoverable(Snapshot(m.table, m.journal), iface, entry, o); }
    added, ok := AddRoutes(m, entry.preferred, here, good);
    if safe { GoodIsCovered(m, here, iface, entry, o); }
  }

  /** The journal has this entry, and it covers the state. */
  ghost predicate Carries(m: Machine, iface: string, entry: Entry, o: Origin)
    reads m
  {
    IsEntryOf(iface, entry, o) && Recoverable(iface, entry, o)(Snapshot(m.table, m.journal))
  }

  /** Takes back the routes added so far and the takeover. */
  method TakeBack(m: Machine, iface: string, entry: Entry, added: seq<Route>, ghost o: Origin, ghost n: nat)
    returns (ghost stuck: bool)
    requires Planned(o.table, entry.changes) && IsInserted(MovedAll(o.table, entry.changes), added, m.table)
    requires added <= entry.preferred
    modifies m
    ensures old(m.trace) <= m.trace && (stuck ==> !m.reliable)
    ensures m.reliable ==>
      m.table == o.table && m.journal == if entry.changes == [] then old(m.journal) else old(m.journal) - {iface}
    ensures old(Carries(m, iface, entry, o) && Good(m, n, CoveredBy(iface, o))) ==>
      KeepsCover(m, n, iface, o, stuck)
  {
    ghost var before, covered := m.trace, Good(m, n, CoveredBy(iface, o));
    RolledBack(o.table, entry.changes, added);
    NamesItsOwn(entry, added);
    var cleaned;
    cleaned, stuck := CleanupApplied(m, iface, added, entry.changes, entry, o);
    if covered { GoodJoins(m, n, before, CoveredBy(iface, o)); }
  }

  lemma NamesItsOwn(entry: Entry, added: seq<Route>)
    requires added <= entry.preferred
    ensures Names(entry, RouteSet(added)) && Names(entry, RoutesOf(entry.changes))
  {
    forall i | 0 <= i < |added| ensures Stored(added[i]) in StoredSet(entry.preferred) {
      assert added[i] == entry.preferred[i];
    }
  }

  /** Adds the preferred routes over the finished takeover, or takes everything back. */
  method AddPreferred(m: Machine, iface: string, entry: Entry, ghost o: Origin, ghost n: nat)
    returns (ok: bool, ghost stuck: bool)
    requires Planned(o.table, entry.changes) && m.table == MovedAll(o.table, entry.changes)
    modifies m
    ensures old(m.trace) <= m.trace && (stuck ==> !ok && !m.reliable)
    ensures ok ==> IsInserted(old(m.table), entry.preferred, m.table) && m.journal == old(m.journal)
    ensures m.reliable && !ok ==>
      && !CanInsertAll(old(m.table), entry.preferred) && m.table == o.table
      && m.journal == if entry.changes == [] then old(m.journal) else old(m.journal) - {iface}
    ensures JustTaken(old(Snapshot(m.table, m.journal)), iface, entry, o) && old(Good(m, n, CoveredBy(iface, o))) ==>
      KeepsCover(m, n, iface, o, stuck)
  {
    var added;
    added, ok := AddSafely(m, iface, entry, o, n);
    stuck := false;
    if !ok {
      stuck := TakeBack(m, iface, entry, added, o, n);
    }
  }

  /** What was covered before and what is covered since. */
  lemma GoodJoins(m: Machine, n: nat, before: seq<Snapshot>, good: Snapshot -> bool)
    requires n <= |before| && before <= m.trace && forall k :: n <= k < |before| ==> good(before[k])
    ensures Good(m, n, good) <==> Good(m, |before|, good)
  {
  }

  lemma MovedIsBetween(base: Table, entry: Entry)
    requires Planned(base, entry.changes)
    ensures Interrupted(MovedAll(base, entry.changes), base, entry)
  {
    MovedAllSlots(base, entry.changes);
  }

  method TakeoverAndAdd(m: Machine, id: string, b: Bearer, preferred: seq<Route>, ghost n: nat)
    returns (c: Conn, ok: bool, ghost current: seq<Route>, ghost stuck: bool)
    requires Proper(m.table) && preferred == RoutesFor(b, DEFAULT_METRIC)
    modifies m
    ensures c.iface == b.iface && c.routes == preferred && c.metric == DEFAULT_METRIC && c.isDefault
    ensures old(m.trace) <= m.trace && (stuck ==> !ok && !m.reliable)
    ensures ok ==> Configured(old(m.table), old(m.journal), id, b, current, m.table, m.journal, c.changes)
    ensures ok && c.changes != [] ==> b.iface !in old(m.journal)
    ensures m.reliable && !ok ==> m.table == old(m.table) && m.journal == old(m.journal)
    ensures m.reliable && !ok ==> b.iface in old(m.journal) || Refused(old(m.table), b, current)
    ensures var o := Origin(old(m.table), old(m.journal), id);
      SomeCompetes(o.table, preferred) && NoneHeld(o.table, preferred) && old(Good(m, n, CoveredBy(b.iface, o))) ==>
        KeepsCover(m, n, b.iface, o, stuck)
  {
    ghost var o, before := Origin(m.table, m.journal, id), m.trace;
    ghost var covered := Good(m, n, CoveredBy(b.iface, o));
    var changes, taken;
    changes, taken, current := TakeoverDefaultRoutes(m, id, b.iface, preferred);
    if covered { GoodJoins(m, n, before, CoveredBy(b.iface, o)); }
    c, stuck := Conn(b.iface, preferred, DEFAULT_METRIC, true, changes), false;
    if !taken {
      GiveUp(m, b.iface, Entry(id, preferred, Changes(current, preferred)), changes, o, n);
      return c, false, current, false;
    }
    ChangesArePlanned(o.table, current, preferred);
    PlanIsNotEmpty(o.table, current, preferred);
    TakenEntry(b.iface, Entry(id, preferred, changes), o);
    ok, stuck := AddPreferred(m, b.iface, Entry(id, preferred, changes), o, n);
  }

  /** Undoes what a failed takeover has left. */
  method GiveUp(m: Machine, iface: string, ghost entry: Entry, changes: seq<Change>, ghost o: Origin, ghost n: nat)
    requires Proper(m.table) && UndoSucceeds(m.table, changes) && UndoneAll(m.table, changes) == o.table
    requires changes != [] ==> changes <= entry.changes && m.journal == o.journal[iface := entry]
    modifies m
    ensures old(m.trace) <= m.trace
    ensures m.reliable ==>
      m.table == o.table && m.journal == if changes == [] then old(m.journal) else old(m.journal) - {iface}
    ensures old(Good(m, n, CoveredBy(iface, o))) ==>
      KeepsCover(m, n, iface, o, false)
  {
    if Covered(Snapshot(m.table, m.journal), iface, o) && changes != [] {
      NamesItsOwn(entry, []);
      NamesPart(entry, changes);
    }
    ghost var before, covered := m.trace, Good(m, n, CoveredBy(iface, o));
    var cleaned;
    ghost var stuck;
    cleaned, stuck := CleanupApplied(m, iface, [], changes, entry, o);
    if covered { GoodJoins(m, n, before, CoveredBy(iface, o)); }
  }

  lemma NamesPart(entry: Entry, changes: seq<Change>)
    requires changes <= entry.changes
    ensures Names(entry, RoutesOf(changes))
  {
    NamesItsOwn(entry, []);
    assert RoutesOf(changes) <= RoutesOf(entry.changes);
  }

  lemma TakenEntry(iface: string, entry: Entry, o: Origin)
    requires Planned(o.table, entry.changes) && entry.modem == o.modem
    ensures iface !in o.journal && NoneHeld(o.table, entry.preferred) ==>
      JustTaken(Snapshot(MovedAll(o.table, entry.changes), o.journal[iface := entry]), iface, entry, o)
    ensures iface !in o.journal ==> o.journal[iface := entry] - {iface} == o.journal
  {
  }

  // ----- when the entry is lost -----

  /** A route in the slot of a moved one blocks the undo. */
  lemma {:induction false} UndoBlocked(t: Table, cs: seq<Change>, k: nat)
    requires k < |cs| && SlotOf(cs[k].original) in t && t[SlotOf(cs[k].original)] != Stored(cs[k].original)
    requires forall i :: 0 <= i < |cs| ==> SlotOf(cs[i].replacement) != SlotOf(cs[k].original)
    ensures !UndoSucceeds(t, cs)
    decreases |cs|
  {
    var n := |cs| - 1;
    if k < n && CanRestore(t, cs[n].original) {
      UndoBlocked(Undone(t, cs[n]), cs[..n], k);
    }
  }

  lemma StuckInTheWay(t: Table, cs: seq<Change>, left: seq<Route>, i: nat, k: nat)
    requires Planned(t, cs) && CanInsertAll(MovedAll(t, cs), left) && NoneHeld(t, left)
    requires i < |cs| && k < |left| && SlotOf(left[k]) == SlotOf(cs[i].original)
    ensures !UndoSucceeds(InsertedAll(MovedAll(t, cs), left), cs)
  {
    var u := InsertedAll(MovedAll(t, cs), left);
    InsertedAllHolds(MovedAll(t, cs), left);
    assert Holds(t, cs[i].original) && Holds(u, left[k]) && Stored(left[k]) in StoredSet(left);
    forall j | 0 <= j < |cs| ensures SlotOf(cs[j].replacement) != SlotOf(cs[i].original) {
    }
    UndoBlocked(u, cs, i);
  }

  lemma StuckElsewhere(t: Table, cs: seq<Change>, left: seq<Route>)
    requires Planned(t, cs) && CanInsertAll(MovedAll(t, cs), left)
    requires Slots(left) !! Originals(cs)
    ensures var u := InsertedAll(MovedAll(t, cs), left);
      UndoSucceeds(u, cs) && UndoneAll(u, cs).Keys == t.Keys + Slots(left) && Slots(left) !! t.Keys
  {
    MovedAllSlots(t, cs);
    StuckIsReady(t, cs, left);
    UndoneAllSlots(InsertedAll(MovedAll(t, cs), left), cs);
    PlannedSlots(t, cs);
    KeysBack(t.Keys, Originals(cs), Replacements(cs), Slots(left));
  }

  lemma KeysBack(t: set<Slot>, originals: set<Slot>, replacements: set<Slot>, left: set<Slot>)
    requires originals <= t && replacements !! t && left !! originals && left !! t - originals + replacements
    ensures t - originals + replacements + left - replacements + originals == t + left && left !! t
  {
  }

  lemma StuckIsReady(t: Table, cs: seq<Change>, left: seq<Route>)
    requires Planned(t, cs) && CanInsertAll(MovedAll(t, cs), left)
    requires Slots(left) !! Originals(cs)
    ensures var u := InsertedAll(MovedAll(t, cs), left);
      Proper(u) && forall i :: 0 <= i < |cs| ==> Holds(u, cs[i].replacement) && SlotOf(cs[i].original) !in u
  {
    var moved := MovedAll(t, cs);
    MovedAllSlots(t, cs);
    MovedHolds(t, cs);
    InsertedAllHolds(moved, left);
    RemovedInserted(moved, left);
    forall i | 0 <= i < |cs| ensures SlotOf(cs[i].original) !in moved {
      assert SlotOf(cs[i].original) in Originals(cs) && Holds(t, cs[i].original);
    }
  }

  lemma MovedHolds(t: Table, cs: seq<Change>)
    requires Planned(t, cs)
    ensures forall i :: 0 <= i < |cs| ==> Holds(MovedAll(t, cs), cs[i].replacement)
  {
    var u := MovedAll(t, cs);
    MovedAllSlots(t, cs);
    forall i | 0 <= i < |cs| ensures Holds(u, cs[i].replacement) {
      assert SlotOf(cs[i].replacement) in Replacements(cs);
      var j :| 0 <= j < |cs| && u[SlotOf(cs[i].replacement)] == Stored(cs[j].replacement);
      assert SlotOf(cs[j].replacement) == SlotOf(cs[i].replacement);
    }
  }

  /**
   When a rollback is left with added routes that could not be deleted, it
   undoes everything, drops the entry and so leaves a table that nothing leads
   back from, exactly if there are such routes and none of them sits in the
   slot of a moved one.
   */
  lemma EntryIsLostExactlyIf(t: Table, cs: seq<Change>, left: seq<Route>)
    requires Planned(t, cs) && CanInsertAll(MovedAll(t, cs), left) && NoneHeld(t, left)
    ensures var u := InsertedAll(MovedAll(t, cs), left);
      UndoSucceeds(u, cs) && UndoneAll(u, cs) != t <==> left != [] && Slots(left) !! Originals(cs)
  {
    if Slots(left) !! Originals(cs) {
      StuckElsewhere(t, cs, left);
      if left == [] { UndoneMoved(t, cs); } else { assert SlotOf(left[0]) in Slots(left); }
    } else {
      var s :| s in Slots(left) && s in Originals(cs);
      var k :| 0 <= k < |left| && SlotOf(left[k]) == s;
      var i :| 0 <= i < |cs| && SlotOf(cs[i].original) == s;
      StuckInTheWay(t, cs, left, i, k);
    }
  }

  /** Such a rollback: the first of two routes is stuck, and the moved route had a lower metric than it. */
  lemma EntryCanBeLost() returns (base: Table, entry: Entry, left: seq<Route>)
    ensures Fits(base, entry) && entry.changes != [] && left < entry.preferred
    ensures CanInsertAll(MovedAll(base, entry.changes), left)
    ensures var u := InsertedAll(MovedAll(base, entry.changes), left);
      && UndoSucceeds(u, entry.changes)
      && !Covered(Snapshot(UndoneAll(u, entry.changes), map[]), "wwan0", Origin(base, map[], entry.modem))
  {
    var host := Route("eth0", 2, STATIC_PROTOCOL, 0, NoAddr, NoAddr, 5);
    var change := Change(host, host.(metric := 16));
    var four := Route("wwan0", 2, STATIC_PROTOCOL, 0, NoAddr, NoAddr, 10);
    base, entry, left := map[SlotOf(host) := host], Entry("modem", [four, four.(family := 10)], [change]), [four];
    assert [change][..0] == [] && MovedAll(base, []) == base;
    assert MovedAll(base, [change]) == Moved(base, change) == map[Slot(2, 16) := change.replacement];
    assert forall k :: 0 <= k < |left| ==> SlotOf(left[k]) == Slot(2, 10);
    assert forall s :: s in Originals([change]) ==> s == Slot(2, 5);
    assert left[0] == entry.preferred[0];
    EntryIsLostExactlyIf(base, [change], left);
  }

  /** The secondary part: the first metric free in every family, and no takeover. */
  method ConfigureSecondary(m: Machine, b: Bearer) returns (c: Conn, ok: bool, ghost current: seq<Route>)
    requires Proper(m.table)
    modifies m
    ensures c.iface == b.iface && c.routes == RoutesFor(b, c.metric) && !c.isDefault && c.changes == []
    ensures Proper(m.table)
    ensures ok || m.reliable ==>
      && Lists(current, old(m.table))
      && IsLeastFreeInAll(Slots(current), Families(RoutesFor(b, 0)), SECONDARY_METRIC, c.metric)
      && ok == CanInsertAll(old(m.table), c.routes)
      && m.table == (if ok then InsertedAll(old(m.table), c.routes) else old(m.table))
      && m.journal == old(m.journal)
    ensures ok ==> c.metric >= 9000 && ServesBearer(m.table, b, c)
  {
    ghost var base := m.table;
    c, ok := Conn(b.iface, RoutesFor(b, SECONDARY_METRIC), SECONDARY_METRIC, false, []), false;
    var listing, listed := m.DefaultRoutes();
    current := listing;
    if !listed.Applied? {
      return;
    }
    var metric := SecondaryRouteMetricFor(RoutesFor(b, SECONDARY_METRIC), listing);
    SameFamilies(b, SECONDARY_METRIC, 0);
    c := Conn(b.iface, RoutesFor(b, metric), metric, false, []);
    var added;
    added, ok := AddRoutes(m, c.routes, 0, s => true);
    RemovedInserted(base, added);
    if !ok {
      var cleaned;
      ghost var stuck;
      cleaned, stuck := CleanupApplied(m, b.iface, added, [], Entry("", [], []), Origin(base, m.journal, ""));
    } else {
      NewRoutesServe(base, b, c);
    }
  }

  lemma SameFamilies(b: Bearer, metric: nat, other: nat)
    ensures Families(RoutesFor(b, metric)) == Families(RoutesFor(b, other))
  {
    forall f | f in Families(RoutesFor(b, metric)) ensures f in Families(RoutesFor(b, other)) {
      var i :| 0 <= i < |b.links| && RoutesFor(b, metric)[i].family == f;
      assert RoutesFor(b, other)[i].family == f;
    }
    forall f | f in Families(RoutesFor(b, other)) ensures f in Families(RoutesFor(b, metric)) {
      var i :| 0 <= i < |b.links| && RoutesFor(b, other)[i].family == f;
      assert RoutesFor(b, metric)[i].family == f;
    }
  }
}
