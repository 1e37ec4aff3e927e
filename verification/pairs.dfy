/**
 Two takeovers one over the other, of any two lists of families, and the table
 after the lower one and then the upper one have been let go.
 */
module TwoTakeovers {
  import opened Routes
  import opened Undo
  import opened Connections
  import opened Tracking
  import opened Connecting
  import opened Bearers
  import opened Inheritance

  // ----- one takeover, route by route -----

  /** u is t with the changes made and the routes added. */
  ghost predicate TakenOver(t: Table, cs: seq<Change>, routes: seq<Route>, u: Table) {
    && Proper(t) && Proper(u)
    && (forall s :: s in t && t[s] !in OriginalSet(cs) ==> s in u && u[s] == t[s])
    && (forall r :: r in ReplacementSet(cs) + StoredSet(routes) ==> SlotOf(r) in u && u[SlotOf(r)] == r)
    && (forall s :: s in u ==>
          || u[s] in ReplacementSet(cs) || u[s] in StoredSet(routes)
          || (s in t && t[s] == u[s] && t[s] !in OriginalSet(cs)))
    && (forall r :: r in ReplacementSet(cs) ==> SlotOf(r) !in t)
    && (forall r :: r in OriginalSet(cs) ==> SlotOf(r) in t && t[SlotOf(r)] == r)
    && (forall r :: r in StoredSet(routes) && SlotOf(r) in t ==> t[SlotOf(r)] in OriginalSet(cs))
  }

  lemma TakesOver(t: Table, cs: seq<Change>, routes: seq<Route>)
    requires Planned(t, cs) && CanInsertAll(MovedAll(t, cs), routes)
    ensures TakenOver(t, cs, routes, InsertedAll(MovedAll(t, cs), routes))
  {
    var moved := MovedAll(t, cs);
    MovedRoutes(t, cs);
    InsertedAllHolds(moved, routes);
    ProperWith(moved, routes);
    InsertedRoutes(moved, routes);
    forall r | r in OriginalSet(cs) ensures SlotOf(r) in t && t[SlotOf(r)] == r {
      var i :| 0 <= i < |cs| && r == Stored(cs[i].original);
      assert Holds(t, cs[i].original);
    }
  }

  lemma InsertedRoutes(t: Table, routes: seq<Route>)
    requires CanInsertAll(t, routes)
    ensures var u := InsertedAll(t, routes);
      && (forall r :: r in StoredSet(routes) ==> SlotOf(r) in u && u[SlotOf(r)] == r && SlotOf(r) !in t)
      && (forall s :: s in u ==> s in t || u[s] in StoredSet(routes))
  {
    InsertedAllHolds(t, routes);
    var u := InsertedAll(t, routes);
    forall s | s in u && s !in t ensures u[s] in StoredSet(routes) {
      var i :| 0 <= i < |routes| && SlotOf(routes[i]) == s;
      assert Holds(u, routes[i]);
    }
  }

  // ----- two takeovers, one over the other -----

  ghost predicate AllIn(a: seq<int>, b: seq<int>) {
    forall f :: f in a ==> f in b
  }

  ghost predicate NoneIn(a: seq<int>, b: seq<int>) {
    forall f :: f in a ==> f !in b
  }

  datatype Pair = Pair(base: Table, low: Bearer, high: Bearer, below: seq<int>, above: seq<int>,
                       first: seq<Change>, second: seq<Change>, one: Table, both: Table) {
    function Lows(): seq<Route> { RoutesFor(low, DEFAULT_METRIC) }

    function Highs(): seq<Route> { RoutesFor(high, DEFAULT_METRIC) }

    /** The lower connection's routes, once the upper one has moved them. */
    function Demoted(): seq<Route> { DemotedRoutes(Lows(), second) }

    ghost predicate Valid() {
      && GoodFamilies(below) && GoodFamilies(above)
      && OneLinkEach(low, below) && OneLinkEach(high, above) && low.iface != high.iface
      && Clears(base, below, first) && TakenOver(base, first, Lows(), one)
      && Clears(one, above, second) && TakenOver(one, second, Highs(), both)
      && forall i :: 0 <= i < |below| ==> !Holds(base, Lows()[i])
    }

    ghost predicate Disjoint() {
      NoneIn(below, above)
    }

    ghost predicate Within() {
      AllIn(below, above)
    }
  }

  lemma LowsDemoted(p: Pair, i: nat)
    requires p.Valid() && i < |p.below|
    ensures p.below[i] in p.above ==> Pairs(p.Lows()[i], p.Demoted()[i], p.second)
    ensures p.below[i] !in p.above ==> p.Demoted()[i] == p.Lows()[i]
  {
    var r := p.Lows()[i];
    assert Stored(r) in StoredSet(p.Lows()) && r.family == p.below[i];
    ClearedOriginals(p.one, p.above, p.second);
    if p.below[i] in p.above {
      assert Stored(r) in OriginalSet(p.second);
      var j :| 0 <= j < |p.second| && Stored(p.second[j].original) == Stored(r);
      RouteDemoted(r, p.second, j);
    } else {
      forall j | 0 <= j < |p.second| ensures !Same(r, p.second[j].original) {
        assert Stored(p.second[j].original) in OriginalSet(p.second);
      }
      RouteNotDemoted(r, p.second);
    }
  }

  // ----- the lower one undoes its own changes -----

  function LowGone(p: Pair): Table {
    UndoneAll(RemovedAll(p.both, p.Demoted()), p.first)
  }

  function BothGone(p: Pair): Table {
    UndoneAll(RemovedAll(LowGone(p), p.Highs()), p.second)
  }

  lemma {:induction false} UndoneIsProper(t: Table, cs: seq<Change>)
    requires Proper(t)
    ensures Proper(UndoneAll(t, cs))
    decreases |cs|
  {
    if cs != [] {
      UndoneIsProper(Undone(t, cs[|cs| - 1]), cs[..|cs| - 1]);
    }
  }

  /** A slot that nothing was moved to keeps its route through an undo. */
  lemma {:induction false} UndoneKeeps(t: Table, cs: seq<Change>, s: Slot)
    requires s in t && forall i :: 0 <= i < |cs| ==> SlotOf(cs[i].replacement) != s
    ensures s in UndoneAll(t, cs) && UndoneAll(t, cs)[s] == t[s]
    decreases |cs|
  {
    if cs != [] {
      UndoneKeeps(Undone(t, cs[|cs| - 1]), cs[..|cs| - 1], s);
    }
  }

  /** A free slot that a change moved a route from gets that route. */
  lemma {:induction false} UndoneFills(t: Table, cs: seq<Change>, j: nat)
    requires Distinct(cs) && j < |cs| && SlotOf(cs[j].original) !in t
    requires forall i :: 0 <= i < |cs| ==> SlotOf(cs[i].replacement) != SlotOf(cs[j].original)
    ensures var s := SlotOf(cs[j].original); s in UndoneAll(t, cs) && UndoneAll(t, cs)[s] == Stored(cs[j].original)
    decreases |cs|
  {
    var n := |cs| - 1;
    if j == n {
      UndoneKeeps(Undone(t, cs[n]), cs[..n], SlotOf(cs[j].original));
    } else {
      UndoneFills(Undone(t, cs[n]), cs[..n], j);
    }
  }

  lemma DefaultSlot(p: Pair, i: nat) returns (k: nat)
    requires p.Valid() && i < |p.below| && p.below[i] in p.above
    ensures var s := SlotOf(p.Lows()[i]);
      k < |p.above| && s == SlotOf(p.Highs()[k]) && s in p.both && p.both[s] == Stored(p.Highs()[k])
  {
    k :| 0 <= k < |p.above| && p.above[k] == p.below[i];
    assert Stored(p.Highs()[k]) in StoredSet(p.Highs());
  }

  lemma LowersNothingElse(p: Pair, s: Slot)
    requires p.Valid() && s.metric <= DEFAULT_METRIC
    ensures forall i :: 0 <= i < |p.first| ==> SlotOf(p.first[i].replacement) != s
    ensures forall i :: 0 <= i < |p.second| ==> SlotOf(p.second[i].replacement) != s
  {
  }

  /** The default slot of a shared family is the upper one's until that is deleted. */
  lemma SharedSlot(p: Pair, i: nat)
    requires p.Valid() && i < |p.below| && p.below[i] in p.above
    ensures Proper(LowGone(p)) && SlotOf(p.Lows()[i]) !in RemovedAll(LowGone(p), p.Highs())
  {
    var k := DefaultSlot(p, i);
    var s, t := SlotOf(p.Lows()[i]), RemovedAll(p.both, p.Demoted());
    RemovedAllSlots(p.both, p.Demoted());
    assert s in t by {
      forall r | r in StoredSet(p.Demoted()) ensures r.iface != p.high.iface { LowsIface(p); }
    }
    LowersNothingElse(p, s);
    UndoneKeeps(t, p.first, s);
    UndoneIsProper(t, p.first);
    RemovedAllSlots(LowGone(p), p.Highs());
    assert Stored(p.Highs()[k]) in StoredSet(p.Highs());
  }

  lemma LowsIface(p: Pair)
    requires p.Valid()
    ensures forall r :: r in StoredSet(p.Demoted()) ==> r.iface == p.low.iface
  {
    forall i | 0 <= i < |p.below| ensures p.Demoted()[i].iface == p.low.iface {
      LowsDemoted(p, i);
    }
  }

  /** For a shared family, the lower one's route comes back when the upper one is let go. */
  lemma RouteLeftBehind(p: Pair, i: nat)
    requires p.Valid() && i < |p.below| && p.below[i] in p.above
    ensures Holds(BothGone(p), p.Lows()[i]) && BothGone(p) != p.base
  {
    LowsDemoted(p, i);
    var j :| 0 <= j < |p.second| && Same(p.Lows()[i], p.second[j].original) &&
      p.Demoted()[i] == p.second[j].replacement;
    SharedSlot(p, i);
    LowersNothingElse(p, SlotOf(p.Lows()[i]));
    UndoneFills(RemovedAll(LowGone(p), p.Highs()), p.second, j);
    assert !Holds(p.base, p.Lows()[i]);
  }

  // ----- no family in common -----

  lemma SecondFitsBase(p: Pair)
    requires p.Valid() && p.Disjoint()
    ensures Planned(p.base, p.second) && CanInsertAll(MovedAll(p.base, p.second), p.Highs())
  {
    ClearedOriginals(p.base, p.below, p.first);
    ClearedOriginals(p.one, p.above, p.second);
    forall i | 0 <= i < |p.second|
      ensures Holds(p.base, p.second[i].original) && SlotOf(p.second[i].replacement) !in p.base
    {
      var o := p.second[i].original;
      assert Stored(o) in OriginalSet(p.second) && Stored(p.second[i].replacement) in ReplacementSet(p.second);
      NotTheLows(p, o);
    }
    MovedAllSlots(p.base, p.second);
    forall i | 0 <= i < |p.above| ensures SlotOf(p.Highs()[i]) !in MovedAll(p.base, p.second) {
      HighSlotFree(p, i);
    }
    forall i, j | 0 <= i < j < |p.above| ensures SlotOf(p.Highs()[i]) != SlotOf(p.Highs()[j]) {
      assert p.Highs()[i].family == p.above[i] && p.Highs()[j].family == p.above[j];
    }
  }

  /** What the upper one moved is the host's. */
  lemma NotTheLows(p: Pair, o: Route)
    requires p.Valid() && p.Disjoint() && Stored(o) in OriginalSet(p.second)
    ensures Holds(p.base, o)
  {
    ClearedOriginals(p.one, p.above, p.second);
    forall r | r in ReplacementSet(p.first) ensures r.metric > DEFAULT_METRIC { }
    forall r | r in StoredSet(p.Lows()) ensures r.family in p.below { }
  }

  lemma HighSlotFree(p: Pair, i: nat)
    requires p.Valid() && p.Disjoint() && i < |p.above| && Planned(p.base, p.second)
    ensures SlotOf(p.Highs()[i]) !in MovedAll(p.base, p.second)
  {
    var s := SlotOf(p.Highs()[i]);
    assert s.family == p.above[i];
    MovedAllSlots(p.base, p.second);
    LowersNothingElse(p, s);
    ClearedOriginals(p.base, p.below, p.first);
    if s in p.base {
      assert p.base[s] !in OriginalSet(p.first);
      assert s in p.one && InFamilies(s, p.above);
    }
  }

  /** The table as if only the upper one had ever connected. */
  function Alone(p: Pair): Table
    requires CanInsertAll(MovedAll(p.base, p.second), p.Highs())
  {
    InsertedAll(MovedAll(p.base, p.second), p.Highs())
  }

  lemma FirstFitsAlone(p: Pair, x: Table)
    requires p.Valid() && p.Disjoint() && TakenOver(p.base, p.second, p.Highs(), x)
    ensures Planned(x, p.first)
  {
    ClearedOriginals(p.base, p.below, p.first);
    ClearedOriginals(p.one, p.above, p.second);
    forall i | 0 <= i < |p.first| ensures Holds(x, p.first[i].original) && SlotOf(p.first[i].replacement) !in x {
      assert Stored(p.first[i].original) in OriginalSet(p.first);
      assert Stored(p.first[i].replacement) in ReplacementSet(p.first);
    }
  }

  lemma LowGoneIsAlone(p: Pair, x: Table)
    requires p.Valid() && p.Disjoint() && TakenOver(p.base, p.second, p.Highs(), x) && p.Demoted() == p.Lows()
    ensures Between(RemovedAll(p.both, p.Demoted()), x, p.first, ReplacementSet(p.first))
  {
    RemovedAllSlots(p.both, p.Demoted());
    ClearedOriginals(p.base, p.below, p.first);
    ClearedOriginals(p.one, p.above, p.second);
  }

  lemma DisjointRestores(p: Pair)
    requires p.Valid() && p.Disjoint()
    ensures UndoSucceeds(RemovedAll(p.both, p.Demoted()), p.first)
    ensures UndoSucceeds(RemovedAll(LowGone(p), p.Highs()), p.second) && BothGone(p) == p.base
  {
    forall i | 0 <= i < |p.below| ensures p.Demoted()[i] == p.Lows()[i] { LowsDemoted(p, i); }
    assert p.Demoted() == p.Lows();
    SecondFitsBase(p);
    TakesOver(p.base, p.second, p.Highs());
    FirstFitsAlone(p, Alone(p));
    LowGoneIsAlone(p, Alone(p));
    UndoRestores(RemovedAll(p.both, p.Demoted()), Alone(p), p.first);
    RolledBack(p.base, p.second, p.Highs());
  }

  // ----- the upper one inherits -----

  lemma LowsMoved(p: Pair)
    requires p.Valid() && p.Within()
    ensures AllMoved(p.Lows(), p.Demoted(), p.second)
  {
    forall i | 0 <= i < |p.below| ensures Pairs(p.Lows()[i], p.Demoted()[i], p.second) {
      LowsDemoted(p, i);
    }
  }

  /** The others moved routes of the host that the lower connection had left alone. */
  lemma OthersFitBase(p: Pair, removed: Conn, c: Change)
    requires p.Valid() && p.Within() && removed.routes == p.Demoted() && c in Others(p.second, removed)
    ensures Holds(p.base, c.original) && Stored(c.original) !in OriginalSet(p.first)
    ensures SlotOf(c.replacement) !in p.base && SlotOf(c.replacement) !in p.one
  {
    OthersAre(p.second, removed);
    LowsMoved(p);
    AboutMoved(p.Lows(), p.Demoted(), p.second, c);
    InSets(p.second);
    ClearedOriginals(p.base, p.below, p.first);
    ClearedOriginals(p.one, p.above, p.second);
    assert Stored(c.original) in OriginalSet(p.second) && Stored(c.replacement) in ReplacementSet(p.second);
    forall r | r in ReplacementSet(p.first) ensures r.metric > DEFAULT_METRIC { }
  }

  lemma OthersApart(p: Pair, removed: Conn)
    requires p.Valid() && p.Within() && removed.routes == p.Demoted()
    ensures SlotsApart(Others(p.second, removed), p.first)
  {
    forall x | x in Others(p.second, removed)
      ensures Holds(p.base, x.original) && Stored(x.original) !in OriginalSet(p.first) &&
        SlotOf(x.replacement) !in p.one
    {
      OthersFitBase(p, removed, x);
    }
    ApartByTables(p.base, p.one, Others(p.second, removed), p.first);
  }

  lemma InheritedFitBase(p: Pair, removed: Conn, all: seq<Change>)
    requires p.Valid() && p.Within() && removed.routes == p.Demoted() && removed.changes == p.first
    requires IsInherited(p.second, removed, false, all)
    ensures Planned(p.base, all)
  {
    forall i | 0 <= i < |all| ensures Holds(p.base, all[i].original) && SlotOf(all[i].replacement) !in p.base {
      var c := all[i];
      if c in Others(p.second, removed) {
        OthersFitBase(p, removed, c);
      } else {
        assert c in p.first;
      }
    }
  }

  /** With both connections' routes deleted. */
  function RoutesGone(p: Pair): Table {
    RemovedAll(RemovedAll(p.both, p.Demoted()), p.Highs())
  }

  lemma RoutesGoneSlots(p: Pair)
    requires p.Valid()
    ensures var t := RoutesGone(p);
      && Proper(t)
      && (forall s :: s in t <==>
        s in p.both && p.both[s] !in StoredSet(p.Demoted()) && p.both[s] !in StoredSet(p.Highs()))
      && (forall s :: s in t ==> t[s] == p.both[s])
  {
    RemovedAllSlots(p.both, p.Demoted());
    RemovedAllSlots(RemovedAll(p.both, p.Demoted()), p.Highs());
  }

  lemma RoutesGoneIsBetween(p: Pair, all: seq<Change>)
    requires p.Valid() && p.Within()
    requires OriginalSet(p.first) <= OriginalSet(all) && ReplacementSet(p.first) <= ReplacementSet(all)
    requires forall r :: r in OriginalSet(p.second) ==> r in OriginalSet(all) || r in StoredSet(p.Lows())
    requires forall r :: r in ReplacementSet(p.second) ==> r in ReplacementSet(all) || r in StoredSet(p.Demoted())
    requires StoredSet(p.Lows()) <= OriginalSet(p.second) && StoredSet(p.Demoted()) <= ReplacementSet(p.second)
    ensures Between(RoutesGone(p), p.base, all, ReplacementSet(all))
  {
    RoutesGoneSlots(p);
    LowsAreNew(p);
  }

  lemma LowsAreNew(p: Pair)
    requires p.Valid()
    ensures forall s :: s in p.base ==> p.base[s] !in StoredSet(p.Lows())
  {
  }

  lemma WithinRestores(p: Pair, removed: Conn)
    requires p.Valid() && p.Within() && removed.routes == p.Demoted() && removed.changes == p.first
    ensures Inherits(p.second, removed)
    ensures var all := InheritedFrom(p.second, removed, false);
      UndoSucceeds(RoutesGone(p), all) && UndoneAll(RoutesGone(p), all) == p.base
  {
    var all := InheritedFrom(p.second, removed, false);
    LowsMoved(p);
    MovedInherits(p.Lows(), p.second, removed);
    OthersApart(p, removed);
    InheritedAre(p.second, removed, false);
    InheritedFitBase(p, removed, all);
    MovedSets(p.Lows(), p.Demoted(), p.second);
    FirstInherited(removed, p.second, all);
    SecondInherited(p.Lows(), removed, p.second, all);
    RoutesGoneIsBetween(p, all);
    UndoRestores(RoutesGone(p), p.base, all);
  }
}
