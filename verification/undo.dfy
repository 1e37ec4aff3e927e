/**
 Moving routes aside and putting them back, and recovery from the journal
 entry written before the first route was touched. Everything here is on
 table values; module Takeover runs the same steps against the machine.
 */
module Undo {
  import opened Routes

  datatype Change = Change(original: Route, replacement: Route)

  datatype Entry = Entry(modem: string, preferred: seq<Route>, changes: seq<Change>)

  // ----- moving routes aside -----

  /** The routes named by cs can be moved: all are in the table, and no two slots involved coincide. */
  ghost predicate Planned(t: Table, cs: seq<Change>) {
    && Proper(t)
    && (forall i :: 0 <= i < |cs| ==> Holds(t, cs[i].original) && SlotOf(cs[i].replacement) !in t)
    && Distinct(cs)
  }

  ghost predicate Distinct(cs: seq<Change>) {
    forall i, j :: 0 <= i < j < |cs| ==>
      && SlotOf(cs[i].original) != SlotOf(cs[j].original)
      && SlotOf(cs[i].replacement) != SlotOf(cs[j].replacement)
  }

  function Originals(cs: seq<Change>): set<Slot> {
    set i | 0 <= i < |cs| :: SlotOf(cs[i].original)
  }

  function Replacements(cs: seq<Change>): set<Slot> {
    set i | 0 <= i < |cs| :: SlotOf(cs[i].replacement)
  }

  function OriginalSet(cs: seq<Change>): set<Route> {
    set i | 0 <= i < |cs| :: Stored(cs[i].original)
  }

  function ReplacementSet(cs: seq<Change>): set<Route> {
    set i | 0 <= i < |cs| :: Stored(cs[i].replacement)
  }

  lemma SplitLast(cs: seq<Change>)
    requires cs != []
    ensures var n := |cs| - 1;
      && Originals(cs) == Originals(cs[..n]) + {SlotOf(cs[n].original)}
      && Replacements(cs) == Replacements(cs[..n]) + {SlotOf(cs[n].replacement)}
      && OriginalSet(cs) == OriginalSet(cs[..n]) + {Stored(cs[n].original)}
      && ReplacementSet(cs) == ReplacementSet(cs[..n]) + {Stored(cs[n].replacement)}
  {
  }

  function Moved(t: Table, c: Change): Table {
    var u := Removed(t, c.original);
    if SlotOf(c.replacement) in u then u else Inserted(u, c.replacement)
  }

  function MovedAll(t: Table, cs: seq<Change>): Table
    decreases |cs|
  {
    if cs == [] then t else Moved(MovedAll(t, cs[..|cs| - 1]), cs[|cs| - 1])
  }

  lemma MovedSlots(t: Table, c: Change)
    requires Proper(t) && Holds(t, c.original) && SlotOf(c.replacement) !in t
    ensures Proper(Moved(t, c))
    ensures Moved(t, c) == (t - {SlotOf(c.original)})[SlotOf(c.replacement) := Stored(c.replacement)]
  {
  }

  /** What moving does, slot by slot. */
  lemma {:induction false} MovedAllSlots(t: Table, cs: seq<Change>)
    requires Planned(t, cs)
    ensures Proper(MovedAll(t, cs))
    ensures MovedAll(t, cs).Keys == t.Keys - Originals(cs) + Replacements(cs)
    ensures forall s :: s in t && s !in Originals(cs) ==> MovedAll(t, cs)[s] == t[s]
    ensures forall s :: s in Replacements(cs) ==> MovedAll(t, cs)[s] in ReplacementSet(cs)
    decreases |cs|
  {
    if cs != [] {
      var n := |cs| - 1;
      var init := cs[..n];
      MovedAllSlots(t, init);
      LastMoved(t, cs, MovedAll(t, init), Moved(MovedAll(t, init), cs[n]));
    }
  }

  /** The last change, on the table m that the others have made. */
  lemma LastMoved(t: Table, cs: seq<Change>, m: Table, u: Table)
    requires cs != [] && Planned(t, cs) && Proper(m) && u == Moved(m, cs[|cs| - 1])
    requires m.Keys == t.Keys - Originals(cs[..|cs| - 1]) + Replacements(cs[..|cs| - 1])
    requires forall s :: s in t && s !in Originals(cs[..|cs| - 1]) ==> m[s] == t[s]
    requires forall s :: s in Replacements(cs[..|cs| - 1]) ==> m[s] in ReplacementSet(cs[..|cs| - 1])
    ensures Proper(u) && u.Keys == t.Keys - Originals(cs) + Replacements(cs)
    ensures forall s :: s in t && s !in Originals(cs) ==> u[s] == t[s]
    ensures forall s :: s in Replacements(cs) ==> u[s] in ReplacementSet(cs)
  {
    var c := cs[|cs| - 1];
    SplitLast(cs);
    LastIsFresh(cs);
    PlannedSlots(t, cs);
    assert Holds(t, c.original) && m[SlotOf(c.original)] == t[SlotOf(c.original)];
    MovedSlots(m, c);
    OneMoreSlot(t.Keys, Originals(cs[..|cs| - 1]), Replacements(cs[..|cs| - 1]), SlotOf(c.original),
      SlotOf(c.replacement));
  }

  lemma OneMoreSlot(t: set<Slot>, originals: set<Slot>, replacements: set<Slot>, o: Slot, r: Slot)
    requires originals <= t && replacements !! t && o in t && o !in originals && r !in t
    ensures t - originals + replacements - {o} + {r} == t - (originals + {o}) + (replacements + {r})
  {
  }

  lemma PlannedSlots(t: Table, cs: seq<Change>)
    requires Planned(t, cs)
    ensures Originals(cs) <= t.Keys && Replacements(cs) !! t.Keys
  {
    forall i | 0 <= i < |cs| ensures SlotOf(cs[i].original) in t && SlotOf(cs[i].replacement) !in t {
      assert Holds(t, cs[i].original);
    }
  }

  lemma LastIsFresh(cs: seq<Change>)
    requires cs != [] && Distinct(cs)
    ensures SlotOf(cs[|cs| - 1].original) !in Originals(cs[..|cs| - 1])
    ensures SlotOf(cs[|cs| - 1].replacement) !in Replacements(cs[..|cs| - 1])
  {
  }

  // ----- putting them back -----

  predicate CanRestore(t: Table, r: Route) {
    SlotOf(r) !in t || Holds(t, r)
  }

  function Restored(t: Table, r: Route): Table
    requires CanRestore(t, r)
  {
    if SlotOf(r) in t then t else Inserted(t, r)
  }

  /** One undo step: the replacement goes only once the original is back. */
  function Undone(t: Table, c: Change): Table {
    if CanRestore(t, c.original) then Removed(Restored(t, c.original), c.replacement) else t
  }

  /** Undo from the last change to the first. */
  function UndoneAll(t: Table, cs: seq<Change>): Table
    decreases |cs|
  {
    if cs == [] then t else UndoneAll(Undone(t, cs[|cs| - 1]), cs[..|cs| - 1])
  }

  /** No undo step finds its original's slot taken by another route. */
  predicate UndoSucceeds(t: Table, cs: seq<Change>)
    decreases |cs|
  {
    cs == [] ||
    (CanRestore(t, cs[|cs| - 1].original) && UndoSucceeds(Undone(t, cs[|cs| - 1]), cs[..|cs| - 1]))
  }

  lemma UndoneSlots(t: Table, c: Change)
    requires Proper(t) && CanRestore(t, c.original) && SlotOf(c.original) != SlotOf(c.replacement)
    ensures Proper(Undone(t, c))
    ensures Holds(t, c.replacement) ==>
              Undone(t, c) == (t - {SlotOf(c.replacement)})[SlotOf(c.original) := Stored(c.original)]
    ensures !Holds(t, c.replacement) ==> Undone(t, c) == t[SlotOf(c.original) := Stored(c.original)]
  {
    var u := Restored(t, c.original);
    assert u == t[SlotOf(c.original) := Stored(c.original)];
  }

  /** Undoing from a table with every replacement in place and every original's slot free, slot by slot. */
  lemma {:induction false} UndoneAllSlots(t: Table, cs: seq<Change>)
    requires Proper(t) && Distinct(cs)
    requires forall i :: 0 <= i < |cs| ==> Holds(t, cs[i].replacement) && SlotOf(cs[i].original) !in t
    ensures UndoSucceeds(t, cs) && Proper(UndoneAll(t, cs))
    ensures UndoneAll(t, cs).Keys == t.Keys - Replacements(cs) + Originals(cs)
    ensures forall s :: s in t && s !in Replacements(cs) ==> UndoneAll(t, cs)[s] == t[s]
    ensures forall s :: s in Originals(cs) ==> UndoneAll(t, cs)[s] in OriginalSet(cs)
    decreases |cs|
  {
    if cs != [] {
      var n := |cs| - 1;
      var init := cs[..n];
      LastUndone(t, cs);
      UndoneAllSlots(Undone(t, cs[n]), init);
      RestUndone(t, cs, Undone(t, cs[n]), UndoneAll(Undone(t, cs[n]), init));
    }
  }

  lemma LastUndone(t: Table, cs: seq<Change>)
    requires cs != [] && Proper(t) && Distinct(cs)
    requires forall i :: 0 <= i < |cs| ==> Holds(t, cs[i].replacement) && SlotOf(cs[i].original) !in t
    ensures var n, c := |cs| - 1, cs[|cs| - 1];
      && CanRestore(t, c.original) && Proper(Undone(t, c)) && Distinct(cs[..n])
      && Undone(t, c) == (t - {SlotOf(c.replacement)})[SlotOf(c.original) := Stored(c.original)]
      && forall i :: 0 <= i < n ==> Holds(Undone(t, c), cs[i].replacement) && SlotOf(cs[i].original) !in Undone(t, c)
  {
    LastIsFresh(cs);
    UndoneSlots(t, cs[|cs| - 1]);
  }

  /** The other changes, undone from the table v that undoing the last one gives. */
  lemma RestUndone(t: Table, cs: seq<Change>, v: Table, u: Table)
    requires cs != [] && Distinct(cs)
    requires forall i :: 0 <= i < |cs| ==> Holds(t, cs[i].replacement) && SlotOf(cs[i].original) !in t
    requires var c := cs[|cs| - 1]; v == (t - {SlotOf(c.replacement)})[SlotOf(c.original) := Stored(c.original)]
    requires u.Keys == v.Keys - Replacements(cs[..|cs| - 1]) + Originals(cs[..|cs| - 1])
    requires forall s :: s in v && s !in Replacements(cs[..|cs| - 1]) ==> u[s] == v[s]
    requires forall s :: s in Originals(cs[..|cs| - 1]) ==> u[s] in OriginalSet(cs[..|cs| - 1])
    ensures u.Keys == t.Keys - Replacements(cs) + Originals(cs)
    ensures forall s :: s in t && s !in Replacements(cs) ==> u[s] == t[s]
    ensures forall s :: s in Originals(cs) ==> u[s] in OriginalSet(cs)
  {
    LastIsFresh(cs);
    SplitLast(cs);
    OriginalsApart(t, cs);
  }

  /** Where every replacement is there and no original is, their slots differ. */
  lemma OriginalsApart(t: Table, cs: seq<Change>)
    requires forall i :: 0 <= i < |cs| ==> Holds(t, cs[i].replacement) && SlotOf(cs[i].original) !in t
    ensures Originals(cs) !! Replacements(cs) && Originals(cs) !! t.Keys && Replacements(cs) <= t.Keys
  {
  }

  // ----- recovery from the journal -----

  /** The plan recorded in the entry fits the table the takeover started from. */
  ghost predicate Fits(base: Table, e: Entry) {
    && Planned(base, e.changes)
    && forall s :: s in base ==> base[s] !in StoredSet(e.preferred)
  }

  /**
   t can be reached from base by stopping anywhere inside a takeover or inside a recovery:
   extra routes are in extra, missing routes are originals.
   */
  ghost predicate Between(t: Table, base: Table, cs: seq<Change>, extra: set<Route>) {
    && Proper(t)
    && (forall s :: s in t ==> (s in base && t[s] == base[s]) || t[s] in extra)
    && (forall s :: s in base && (s !in t || t[s] != base[s]) ==> base[s] in OriginalSet(cs))
  }

  ghost predicate Interrupted(t: Table, base: Table, e: Entry) {
    Between(t, base, e.changes, StoredSet(e.preferred) + ReplacementSet(e.changes))
  }

  /** Recovery: drop the preferred routes, then undo every recorded change. */
  function Recovered(t: Table, e: Entry): Table {
    UndoneAll(RemovedAll(t, e.preferred), e.changes)
  }

  /** However far a takeover or a recovery got, recovering restores the table it started from. */
  lemma RecoveryRestores(t: Table, base: Table, e: Entry)
    requires Fits(base, e) && Interrupted(t, base, e)
    ensures UndoSucceeds(RemovedAll(t, e.preferred), e.changes)
    ensures Recovered(t, e) == base
  {
    RemovedAllSlots(t, e.preferred);
    UndoRestores(RemovedAll(t, e.preferred), base, e.changes);
  }

  lemma UndoRestoresLast(t: Table, base: Table, cs: seq<Change>)
    requires cs != [] && Planned(base, cs) && Between(t, base, cs, ReplacementSet(cs))
    ensures CanRestore(t, cs[|cs| - 1].original)
    ensures Between(Undone(t, cs[|cs| - 1]), base, cs[..|cs| - 1], ReplacementSet(cs[..|cs| - 1]))
  {
    var c := cs[|cs| - 1];
    OriginalIsFree(t, base, cs);
    UndoneSlots(t, c);
    SplitLast(cs);
    UndoneIsKnown(t, base, cs, Undone(t, c));
    UndoneIsWhole(t, base, cs, Undone(t, c));
  }

  /** Of the slot of a moved route only the route itself can be in the way. */
  lemma OriginalIsFree(t: Table, base: Table, cs: seq<Change>)
    requires cs != [] && Planned(base, cs) && Between(t, base, cs, ReplacementSet(cs))
    ensures var c := cs[|cs| - 1]; CanRestore(t, c.original) && SlotOf(c.original) != SlotOf(c.replacement)
  {
    var c := cs[|cs| - 1];
    PlannedSlots(base, cs);
    assert Holds(base, c.original) && SlotOf(c.replacement) in Replacements(cs);
    forall r | r in ReplacementSet(cs) ensures SlotOf(r) in Replacements(cs) {
      var i :| 0 <= i < |cs| && r == Stored(cs[i].replacement);
    }
  }

  lemma UndoneIsKnown(t: Table, base: Table, cs: seq<Change>, u: Table)
    requires cs != [] && Planned(base, cs) && Between(t, base, cs, ReplacementSet(cs))
    requires u == Undone(t, cs[|cs| - 1]) && CanRestore(t, cs[|cs| - 1].original)
    ensures forall s :: s in u ==> (s in base && u[s] == base[s]) || u[s] in ReplacementSet(cs[..|cs| - 1])
  {
    var c := cs[|cs| - 1];
    SplitLast(cs);
    assert Holds(base, c.original);
    forall s | s in u && s != SlotOf(c.original) ensures s in t && u[s] == t[s] && t[s] != Stored(c.replacement) {
      assert s in t && t[s] == Stored(c.replacement) ==> Holds(t, c.replacement);
    }
  }

  lemma UndoneIsWhole(t: Table, base: Table, cs: seq<Change>, u: Table)
    requires cs != [] && Planned(base, cs) && Between(t, base, cs, ReplacementSet(cs))
    requires u == Undone(t, cs[|cs| - 1]) && CanRestore(t, cs[|cs| - 1].original)
    requires SlotOf(cs[|cs| - 1].original) != SlotOf(cs[|cs| - 1].replacement)
    ensures forall s :: s in base && (s !in u || u[s] != base[s]) ==> base[s] in OriginalSet(cs[..|cs| - 1])
  {
    var c := cs[|cs| - 1];
    SplitLast(cs);
    UndoneSlots(t, c);
    assert Holds(base, c.original) && SlotOf(c.replacement) !in base;
  }

  /** Undoing a plan gives back its table, even when only part of it was carried out. */
  lemma BetweenNothing(t: Table, base: Table)
    requires Between(t, base, [], ReplacementSet([]))
    ensures t == base
  {
    assert t.Keys == base.Keys;
  }

  lemma PlannedFront(base: Table, cs: seq<Change>)
    requires cs != [] && Planned(base, cs)
    ensures Planned(base, cs[..|cs| - 1])
  {
  }

  lemma {:induction false} UndoRestores(t: Table, base: Table, cs: seq<Change>)
    requires Planned(base, cs) && Between(t, base, cs, ReplacementSet(cs))
    ensures UndoSucceeds(t, cs) && UndoneAll(t, cs) == base
    decreases |cs|
  {
    if cs == [] {
      BetweenNothing(t, base);
    } else {
      var n := |cs| - 1;
      PlannedFront(base, cs);
      UndoRestoresLast(t, base, cs);
      UndoRestores(Undone(t, cs[n]), base, cs[..n]);
    }
  }

  /** In particular undo inverts moving. */
  lemma UndoneMoved(t: Table, cs: seq<Change>)
    requires Planned(t, cs)
    ensures UndoSucceeds(MovedAll(t, cs), cs) && UndoneAll(MovedAll(t, cs), cs) == t
  {
    MovedAllSlots(t, cs);
    var m := MovedAll(t, cs);
    assert Between(m, t, cs, ReplacementSet(cs));
    UndoRestores(m, t, cs);
  }

  // ----- every single step keeps a table recoverable -----

  datatype Op = Put(r: Route) | Drop(r: Route)

  function Done(t: Table, op: Op): Table {
    match op
    case Put(r) => if SlotOf(r) in t then t else Inserted(t, r)
    case Drop(r) => Removed(t, r)
  }

  /** The routes a takeover, its rollback or a recovery adds and deletes. */
  ghost predicate Allowed(op: Op, e: Entry) {
    Stored(op.r) in StoredSet(e.preferred) + OriginalSet(e.changes) + ReplacementSet(e.changes)
  }

  lemma StepStaysRecoverable(t: Table, op: Op, base: Table, e: Entry)
    requires Fits(base, e) && Interrupted(t, base, e) && Allowed(op, e)
    ensures Interrupted(Done(t, op), base, e)
  {
    var extra := StoredSet(e.preferred) + ReplacementSet(e.changes);
    if Stored(op.r) in OriginalSet(e.changes) {
      assert Holds(base, op.r);
    }
    match op {
      case Put(r) => PutStays(t, r, base, e.changes, extra);
      case Drop(r) => DropStays(t, r, base, e.changes, extra);
    }
  }

  lemma PutStays(t: Table, r: Route, base: Table, cs: seq<Change>, extra: set<Route>)
    requires Between(t, base, cs, extra) && (Stored(r) in extra || Holds(base, r))
    ensures Between(Done(t, Put(r)), base, cs, extra)
  {
  }

  lemma DropStays(t: Table, r: Route, base: Table, cs: seq<Change>, extra: set<Route>)
    requires Proper(base) && Between(t, base, cs, extra)
    requires forall s :: s in base && base[s] == Stored(r) ==> Stored(r) in OriginalSet(cs)
    ensures Between(Done(t, Drop(r)), base, cs, extra)
  {
  }

  function AfterAll(t: Table, ops: seq<Op>): Table
    decreases |ops|
  {
    if ops == [] then t else Done(AfterAll(t, ops[..|ops| - 1]), ops[|ops| - 1])
  }

  /** Stop after any such steps, in any order and number, and recover: the starting table is back. */
  lemma {:induction false} AnyRunIsRecoverable(base: Table, ops: seq<Op>, e: Entry)
    requires Fits(base, e)
    requires forall k :: 0 <= k < |ops| ==> Allowed(ops[k], e)
    ensures Interrupted(AfterAll(base, ops), base, e)
    ensures Recovered(AfterAll(base, ops), e) == base
    decreases |ops|
  {
    if ops != [] {
      AnyRunIsRecoverable(base, ops[..|ops| - 1], e);
      StepStaysRecoverable(AfterAll(base, ops[..|ops| - 1]), ops[|ops| - 1], base, e);
    }
    RecoveryRestores(AfterAll(base, ops), base, e);
  }
}
