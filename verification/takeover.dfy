/**
 The takeover transaction and recovery, run step by step against the machine:
 journal first, then one route at a time, rolling back what fails.
 */
module Takeover {
  import opened Routes
  import opened Undo
  import opened Demotion
  import opened Machines

  // ----- properties that hold wherever the process stops -----

  /** good holds now and held in every state since the trace was n long. */
  ghost predicate Good(m: Machine, n: nat, good: Snapshot -> bool)
    reads m
  {
    && n <= |m.trace|
    && (forall k :: n <= k < |m.trace| ==> good(m.trace[k]))
    && good(Snapshot(m.table, m.journal))
  }

  /** Adding or deleting one of the routes keeps good. */
  ghost predicate Keeps(good: Snapshot -> bool, routes: set<Route>) {
    forall t: Table, j: map<string, Entry>, op: Op {:trigger Done(t, op), Snapshot(t, j)} ::
      good(Snapshot(t, j)) && op.r in routes ==> good(Snapshot(Done(t, op), j))
  }

  function RoutesOf(cs: seq<Change>): set<Route> {
    (set i | 0 <= i < |cs| :: cs[i].original) + (set i | 0 <= i < |cs| :: cs[i].replacement)
  }

  lemma ChangeRoutes(cs: seq<Change>, i: nat)
    requires i < |cs|
    ensures cs[i].original in RoutesOf(cs) && cs[i].replacement in RoutesOf(cs)
  {
  }

  function RouteSet(rs: seq<Route>): set<Route> {
    set i | 0 <= i < |rs| :: rs[i]
  }

  /** What a takeover starts from, and the modem in whose name it writes its entry. */
  datatype Origin = Origin(table: Table, journal: map<string, Entry>, modem: string)

  /** The journal holds the entry besides the original ones, and the entry leads back. */
  ghost function Recoverable(iface: string, entry: Entry, o: Origin): Snapshot -> bool {
    (s: Snapshot) => s.journal == o.journal[iface := entry] && Interrupted(s.table, o.table, entry)
  }

  /** The entry has all these routes, its own or those it moved. */
  ghost predicate Names(entry: Entry, routes: set<Route>) {
    forall r :: r in routes ==>
      Stored(r) in StoredSet(entry.preferred) + OriginalSet(entry.changes) + ReplacementSet(entry.changes)
  }

  lemma RecoverableKeeps(iface: string, entry: Entry, o: Origin, routes: set<Route>)
    requires Fits(o.table, entry) && Names(entry, routes)
    ensures Keeps(Recoverable(iface, entry, o), routes)
  {
    var good := Recoverable(iface, entry, o);
    forall t: Table, j: map<string, Entry>, op: Op | good(Snapshot(t, j)) && op.r in routes
      ensures good(Snapshot(Done(t, op), j))
    {
      StepStaysRecoverable(t, op, o.table, entry);
    }
  }

  lemma RecoverableIsKept(iface: string, entry: Entry, o: Origin)
    requires Fits(o.table, entry)
    ensures Keeps(Recoverable(iface, entry, o), RoutesOf(entry.changes))
    ensures Keeps(Recoverable(iface, entry, o), RouteSet(entry.preferred))
  {
    RecoverableKeeps(iface, entry, o, RoutesOf(entry.changes));
    RecoverableKeeps(iface, entry, o, RouteSet(entry.preferred));
  }

  /**
   A state from which the original one can be recovered: with an entry in the
   journal, by the entry; without one, it is the original state.
   */
  ghost predicate Covered(s: Snapshot, iface: string, o: Origin) {
    && iface !in o.journal
    && if iface in s.journal then
         var entry := s.journal[iface];
         && s.journal == o.journal[iface := entry] && entry.modem == o.modem
         && Fits(o.table, entry) && Interrupted(s.table, o.table, entry)
       else
         s.table == o.table && s.journal == o.journal
  }

  /** Recovering in any covered state gives the original one. */
  lemma CoveredRecovers(s: Snapshot, iface: string, o: Origin)
    requires Covered(s, iface, o)
    ensures o.table == if iface in s.journal then Recovered(s.table, s.journal[iface]) else s.table
    ensures o.journal == s.journal - {iface}
  {
    if iface in s.journal {
      RecoveryRestores(s.table, o.table, s.journal[iface]);
    }
  }

  ghost function CoveredBy(iface: string, o: Origin): Snapshot -> bool {
    (s: Snapshot) => Covered(s, iface, o)
  }

  // ----- restoring -----

  method RestoreOriginalDefaultRoute(m: Machine, route: Route) returns (ok: bool)
    requires Proper(m.table)
    modifies m
    ensures m.journal == old(m.journal) && m.trace == old(m.trace) + [Snapshot(m.table, m.journal)]
    ensures ok ==> CanRestore(old(m.table), route)
    ensures m.table == if ok then Restored(old(m.table), route) else old(m.table)
    ensures m.reliable ==> ok == CanRestore(old(m.table), route)
  {
    var added := m.AddDefaultRoute(route);
    if added.AlreadyExists? {
      var current, listed := m.DefaultRoutes();
      if !listed.Applied? {
        return false;
      }
      ListedExists(route, current, m.table);
      return Exists(route, current);
    }
    return added.Applied?;
  }

  lemma ListedExists(r: Route, current: seq<Route>, t: Table)
    requires Proper(t) && Lists(current, t)
    ensures Exists(r, current) <==> Holds(t, r)
  {
    if Holds(t, r) {
      var i :| 0 <= i < |current| && current[i] == t[SlotOf(r)];
      assert Same(r, current[i]);
    }
    if Exists(r, current) {
      var i :| 0 <= i < |current| && Same(r, current[i]);
      assert SlotOf(current[i]) == SlotOf(r);
    }
  }

  method RestoreDefaultRoute(m: Machine, change: Change, ghost n: nat,
                             ghost good: Snapshot -> bool, ghost routes: set<Route>)
    returns (ok: bool)
    requires Proper(m.table) && change.original in routes && change.replacement in routes
    modifies m
    ensures Proper(m.table) && m.journal == old(m.journal) && old(m.trace) <= m.trace
    ensures ok || m.reliable ==> m.table == Undone(old(m.table), change)
    ensures ok ==> CanRestore(old(m.table), change.original)
    ensures m.reliable ==> ok == CanRestore(old(m.table), change.original)
    ensures Keeps(good, routes) && old(Good(m, n, good)) ==> Good(m, n, good)
  {
    ghost var put, drop := Done(m.table, Put(change.original)), Drop(change.replacement);
    ok := RestoreOriginalDefaultRoute(m, change.original);
    if ok {
      ghost var after := Done(m.table, drop);
      var deleted := m.DeleteDefaultRoute(change.replacement);
      ok := deleted.Applied?;
    }
  }

  /** Puts routes back from the last change to the first; a replacement stays if its original cannot be restored. */
  method RestoreDefaultRoutes(m: Machine, cs: seq<Change>, ghost n: nat, ghost good: Snapshot -> bool)
    returns (ok: bool)
    requires Proper(m.table)
    modifies m
    ensures Proper(m.table) && m.journal == old(m.journal) && old(m.trace) <= m.trace
    ensures ok || m.reliable ==> m.table == UndoneAll(old(m.table), cs)
    ensures ok ==> UndoSucceeds(old(m.table), cs)
    ensures m.reliable ==> ok == UndoSucceeds(old(m.table), cs)
    ensures Keeps(good, RoutesOf(cs)) && old(Good(m, n, good)) ==> Good(m, n, good)
  {
    ok := true;
    var i := |cs|;
    assert cs[..i] == cs;
    while i > 0
      invariant 0 <= i <= |cs|
      invariant Proper(m.table) && m.journal == old(m.journal) && old(m.trace) <= m.trace
      invariant ok || m.reliable ==> UndoneAll(m.table, cs[..i]) == UndoneAll(old(m.table), cs)
      invariant ok ==> (UndoSucceeds(old(m.table), cs) <==> UndoSucceeds(m.table, cs[..i]))
      invariant m.reliable && !ok ==> !UndoSucceeds(old(m.table), cs)
      invariant Keeps(good, RoutesOf(cs)) && old(Good(m, n, good)) ==> Good(m, n, good)
    {
      i := i - 1;
      assert cs[..i + 1][..i] == cs[..i];
      ChangeRoutes(cs, i);
      var restored := RestoreDefaultRoute(m, cs[i], n, good, RoutesOf(cs));
      ok := ok && restored;
    }
  }

  // ----- the transaction -----

  lemma {:induction false} NextMove(t: Table, cs: seq<Change>, i: nat)
    requires Planned(t, cs) && i < |cs|
    ensures var u := MovedAll(t, cs[..i]);
      && Proper(u) && Holds(u, cs[i].original) && SlotOf(cs[i].replacement) !in u
      && MovedAll(t, cs[..i + 1]) ==
        (u - {SlotOf(cs[i].original)})[SlotOf(cs[i].replacement) := Stored(cs[i].replacement)]
      && Planned(t, cs[..i + 1])
  {
    var done := cs[..i + 1];
    assert done[..i] == cs[..i] && done[i] == cs[i];
    MovedAllSlots(t, cs[..i]);
    LastIsFresh(done);
    MovedSlots(MovedAll(t, cs[..i]), cs[i]);
  }

  /** A change whose original is gone and whose replacement never came undoes like a completed one. */
  lemma UndoneHalfway(t: Table, cs: seq<Change>, i: nat)
    requires Planned(t, cs) && i < |cs|
    ensures var u := MovedAll(t, cs[..i]) - {SlotOf(cs[i].original)};
      Proper(u) && UndoSucceeds(u, cs[..i + 1]) && UndoneAll(u, cs[..i + 1]) == t
  {
    NextMove(t, cs, i);
    var m := MovedAll(t, cs[..i]);
    var u := m - {SlotOf(cs[i].original)};
    assert cs[..i + 1][..i] == cs[..i];
    UndoneSlots(u, cs[i]);
    assert Undone(u, cs[i]) == m;
    UndoneMoved(t, cs[..i]);
  }

  /** How far one change of a takeover got. */
  datatype Progress = Complete | Unchanged | Halfway

  method MoveDefaultRoute(m: Machine, change: Change, ghost n: nat,
                          ghost good: Snapshot -> bool, ghost routes: set<Route>)
    returns (p: Progress)
    requires Proper(m.table) && change.original in routes && change.replacement in routes
    requires Holds(m.table, change.original) && SlotOf(change.replacement) !in m.table
    modifies m
    ensures m.journal == old(m.journal) && old(m.trace) <= m.trace
    ensures m.table == match p
      case Complete =>
        (old(m.table) - {SlotOf(change.original)})[SlotOf(change.replacement) := Stored(change.replacement)]
      case Unchanged => old(m.table)
      case Halfway => old(m.table) - {SlotOf(change.original)}
    ensures m.reliable ==> p.Complete?
    ensures Keeps(good, routes) && old(Good(m, n, good)) ==> Good(m, n, good)
  {
    ghost var t0 := m.table;
    ghost var t1 := Done(t0, Drop(change.original));
    ghost var t2 := Done(t1, Put(change.replacement));
    var deleted := m.DeleteDefaultRoute(change.original);
    if !deleted.Applied? {
      return Unchanged;
    }
    var added := m.AddDefaultRoute(change.replacement);
    if added.Applied? {
      return Complete;
    }
    ghost var t3 := Done(t1, Put(change.original));
    var restored := RestoreOriginalDefaultRoute(m, change.original);
    p := if restored then Unchanged else Halfway;
  }

  method ApplyChanges(m: Machine, changes: seq<Change>, ghost n: nat, ghost good: Snapshot -> bool)
    returns (applied: seq<Change>, ok: bool)
    requires Planned(m.table, changes)
    modifies m
    ensures Proper(m.table) && m.journal == old(m.journal) && old(m.trace) <= m.trace
    ensures applied <= changes && (ok ==> applied == changes && m.table == MovedAll(old(m.table), applied))
    ensures m.reliable ==> ok
    ensures UndoSucceeds(m.table, applied) && UndoneAll(m.table, applied) == old(m.table)
    ensures Keeps(good, RoutesOf(changes)) && old(Good(m, n, good)) ==> Good(m, n, good)
  {
    ghost var base := m.table;
    var i := 0;
    applied, ok := [], false;
    while i < |changes|
      invariant 0 <= i <= |changes| && applied == changes[..i]
      invariant m.table == MovedAll(base, applied) && m.journal == old(m.journal) && old(m.trace) <= m.trace
      invariant Keeps(good, RoutesOf(changes)) && old(Good(m, n, good)) ==> Good(m, n, good)
    {
      NextMove(base, changes, i);
      ChangeRoutes(changes, i);
      var p := MoveDefaultRoute(m, changes[i], n, good, RoutesOf(changes));
      match p {
        case Complete =>
          applied := changes[..i + 1];
          i := i + 1;
        case Unchanged =>
          UndoneMoved(base, applied);
          return;
        case Halfway =>
          UndoneHalfway(base, changes, i);
          applied := changes[..i + 1];
          return;
      }
    }
    ok := true;
    assert applied == changes;
    MovedAllSlots(base, changes);
    UndoneMoved(base, applied);
  }

  /** With nothing applied the saved entry is dropped; otherwise it stays for a later undo. */
  method CleanupSavedState(m: Machine, applied: seq<Change>, ghost n: nat, iface: string, ghost o: Origin)
    requires applied == [] ==> m.table == o.table
    modifies m
    ensures m.table == old(m.table) && old(m.trace) <= m.trace
    ensures m.journal - {iface} == old(m.journal) - {iface} && (applied != [] ==> m.journal == old(m.journal))
    ensures old(Good(m, n, CoveredBy(iface, o))) ==> Good(m, n, CoveredBy(iface, o))
  {
    if |applied| > 0 {
      return;
    }
    var deleted := m.DeleteRouteState(iface);
  }

  lemma GoodIsCovered(m: Machine, n: nat, iface: string, entry: Entry, o: Origin)
    requires iface !in o.journal && entry.modem == o.modem
    requires Fits(o.table, entry) && Good(m, n, Recoverable(iface, entry, o))
    ensures Good(m, n, CoveredBy(iface, o))
  {
  }

  ghost predicate NoneHeld(t: Table, rs: seq<Route>) {
    forall s :: s in t ==> t[s] !in StoredSet(rs)
  }

  /** A stop does no harm: no entry is written, or its preferred routes are the takeover's own. */
  ghost predicate Harmless(t: Table, preferred: seq<Route>) {
    (forall s :: s in t ==> !Competes(t[s], preferred)) || NoneHeld(t, preferred)
  }

  /** Applies the changes with their entry already in the journal. */
  method ApplyJournalled(m: Machine, iface: string, entry: Entry, ghost o: Origin, ghost n: nat)
    returns (applied: seq<Change>, ok: bool)
    requires Planned(m.table, entry.changes) && m.table == o.table && m.journal == o.journal[iface := entry]
    requires iface !in o.journal && entry.modem == o.modem && n <= |m.trace|
    modifies m
    ensures Proper(m.table) && m.journal == old(m.journal) && old(m.trace) <= m.trace
    ensures applied <= entry.changes && (ok ==> applied == entry.changes && m.table == MovedAll(old(m.table), applied))
    ensures m.reliable ==> ok
    ensures UndoSucceeds(m.table, applied) && UndoneAll(m.table, applied) == old(m.table)
    ensures NoneHeld(o.table, entry.preferred) && old(Good(m, n, CoveredBy(iface, o))) ==>
              Good(m, n, CoveredBy(iface, o))
  {
    ghost var here, good := |m.trace|, Recoverable(iface, entry, o);
    ghost var safe := NoneHeld(o.table, entry.preferred);
    if safe {
      RecoverableIsKept(iface, entry, o);
      assert good(Snapshot(m.table, m.journal));
    }
    applied, ok := ApplyChanges(m, entry.changes, here, good);
    if safe { GoodIsCovered(m, here, iface, entry, o); }
  }

  lemma JustSavedIsCovered(iface: string, entry: Entry, o: Origin)
    requires iface !in o.journal && entry.modem == o.modem
    requires Planned(o.table, entry.changes) && NoneHeld(o.table, entry.preferred)
    ensures Covered(Snapshot(o.table, o.journal[iface := entry]), iface, o)
  {
  }

  /** Journals the plan, then carries it out. */
  method CommitChanges(m: Machine, iface: string, entry: Entry) returns (applied: seq<Change>, ok: bool)
    requires Planned(m.table, entry.changes)
    modifies m
    ensures Proper(m.table) && old(m.trace) <= m.trace
    ensures ok ==>
      && applied == entry.changes && iface !in old(m.journal)
      && m.table == MovedAll(old(m.table), applied) && m.journal == old(m.journal)[iface := entry]
    ensures applied != [] ==>
      applied <= entry.changes && iface !in old(m.journal) && m.journal == old(m.journal)[iface := entry]
    ensures m.reliable ==> ok == (iface !in old(m.journal))
    ensures m.reliable && !ok ==> applied == [] && m.table == old(m.table) && m.journal == old(m.journal)
    ensures UndoSucceeds(m.table, applied) && UndoneAll(m.table, applied) == old(m.table)
    ensures m.journal - {iface} == old(m.journal) - {iface}
    ensures var o := Origin(old(m.table), old(m.journal), entry.modem);
      iface !in old(m.journal) && NoneHeld(o.table, entry.preferred) ==> Good(m, |old(m.trace)|, CoveredBy(iface, o))
  {
    ghost var o, n := Origin(m.table, m.journal, entry.modem), |m.trace|;
    applied, ok := [], false;
    var saved := m.SaveRouteState(iface, entry);
    if !saved.Applied? {
      return;
    }
    if NoneHeld(o.table, entry.preferred) { JustSavedIsCovered(iface, entry, o); }
    applied, ok := ApplyJournalled(m, iface, entry, o, n);
    if !ok {
      CleanupSavedState(m, applied, n, iface, o);
    }
  }

  /**
   Demotes every competing route. Whatever fails, undoing the returned changes
   gives the table back; wherever the process stops, the journal does.
   */
  method TakeoverDefaultRoutes(m: Machine, modem: string, iface: string, preferred: seq<Route>)
    returns (applied: seq<Change>, ok: bool, ghost current: seq<Route>)
    requires Proper(m.table)
    modifies m
    ensures Proper(m.table) && old(m.trace) <= m.trace
    ensures ok ==>
      && Lists(current, old(m.table))
      && applied == Changes(current, preferred)
      && m.table == MovedAll(old(m.table), applied)
      && (applied != [] ==> iface !in old(m.journal))
      && m.journal == (if applied == [] then old(m.journal)
        else old(m.journal)[iface := Entry(modem, preferred, applied)])
    ensures applied != [] ==>
      var plan := Changes(current, preferred);
      && Lists(current, old(m.table)) && applied <= plan
      && iface !in old(m.journal) && m.journal == old(m.journal)[iface := Entry(modem, preferred, plan)]
    ensures m.reliable && iface !in old(m.journal) ==> ok
    ensures m.reliable && !ok ==> applied == [] && m.table == old(m.table) && m.journal == old(m.journal)
    ensures UndoSucceeds(m.table, applied) && UndoneAll(m.table, applied) == old(m.table)
    ensures m.journal - {iface} == old(m.journal) - {iface}
    ensures var o := Origin(old(m.table), old(m.journal), modem);
      iface !in old(m.journal) && Harmless(o.table, preferred) ==> Good(m, |old(m.trace)|, CoveredBy(iface, o))
  {
    var listing, listed := m.DefaultRoutes();
    current, applied, ok := listing, [], false;
    if !listed.Applied? {
      return;
    }
    var changes := DefaultRouteChanges(listing, preferred);
    if |changes| == 0 {
      ok := true;
      return;
    }
    PlanIsNotEmpty(m.table, listing, preferred);
    applied, ok := CommitChanges(m, iface, Entry(modem, preferred, changes));
  }

  lemma PlanIsNotEmpty(t: Table, current: seq<Route>, preferred: seq<Route>)
    requires Proper(t) && Lists(current, t)
    ensures Planned(t, Changes(current, preferred))
    ensures Changes(current, preferred) == [] <==> forall s :: s in t ==> !Competes(t[s], preferred)
  {
    var cs := Changes(current, preferred);
    ChangesArePlanned(t, current, preferred);
    if cs != [] { assert SlotOf(cs[0].original) in Originals(cs) && Holds(t, cs[0].original); }
  }

  // ----- when a stop is harmless -----

  lemma {:induction false} StaysGone(t: Table, cs: seq<Change>, s: Slot)
    requires s !in t && forall i :: 0 <= i < |cs| ==> SlotOf(cs[i].original) != s
    ensures s !in UndoneAll(t, cs)
    decreases |cs|
  {
    if cs != [] {
      StaysGone(Undone(t, cs[|cs| - 1]), cs[..|cs| - 1], s);
    }
  }

  /** A held preferred route is deleted by the recovery and not put back. */
  lemma HeldIsLost(t: Table, current: seq<Route>, preferred: seq<Route>, s: Slot)
    requires Proper(t) && Lists(current, t) && s in t && t[s] in StoredSet(preferred)
    ensures s !in UndoneAll(RemovedAll(t, preferred), Changes(current, preferred))
  {
    var cs := Changes(current, preferred);
    ChangesArePlanned(t, current, preferred);
    RemovedAllSlots(t, preferred);
    var k :| 0 <= k < |preferred| && t[s] == Stored(preferred[k]);
    forall i | 0 <= i < |cs| ensures SlotOf(cs[i].original) != s {
      assert Holds(t, cs[i].original) && Competes(cs[i].original, preferred);
      assert !Same(cs[i].original, preferred[k]);
    }
    StaysGone(RemovedAll(t, preferred), cs, s);
  }

  /**
   If an entry is saved at all, recovery right after it gives the table back,
   exactly if the stop is harmless: nothing competes, so that there is no
   entry, or none of the preferred routes was there before.
   */
  lemma SafeExactlyIfHarmless(t: Table, current: seq<Route>, preferred: seq<Route>, modem: string)
    requires Proper(t) && Lists(current, t)
    ensures var cs := Changes(current, preferred);
      (cs != [] ==> Recovered(t, Entry(modem, preferred, cs)) == t) <==> Harmless(t, preferred)
  {
    var cs := Changes(current, preferred);
    PlanIsNotEmpty(t, current, preferred);
    if NoneHeld(t, preferred) {
      RecoveryRestores(t, t, Entry(modem, preferred, cs));
    } else {
      var s :| s in t && t[s] in StoredSet(preferred);
      HeldIsLost(t, current, preferred, s);
    }
  }

  /** Such a table: the preferred route is already there, next to a competitor. Recovery loses it. */
  lemma HeldRouteIsLost() returns (t: Table, current: seq<Route>, preferred: seq<Route>)
    ensures Proper(t) && Lists(current, t) && Changes(current, preferred) != []
    ensures !Harmless(t, preferred) && Recovered(t, Entry("modem", preferred, Changes(current, preferred))) != t
  {
    var own := Route("wwan0", 2, STATIC_PROTOCOL, 0, NoAddr, NoAddr, 10);
    var other := Route("eth0", 2, STATIC_PROTOCOL, 0, NoAddr, NoAddr, 5);
    t, current, preferred := map[SlotOf(own) := own, SlotOf(other) := other], [own, other], [own];
    assert own in StoredSet(preferred) by { assert Stored(preferred[0]) == own; }
    assert t[SlotOf(own)] == own && t[SlotOf(other)] == other;
    assert preferred[0].family == other.family;
    assert !Exists(other, preferred) && Competes(t[SlotOf(other)], preferred);
    PlanIsNotEmpty(t, current, preferred);
    SafeExactlyIfHarmless(t, current, preferred, "modem");
  }
}
