/**
 What becomes of a list of changes when the connection that some of them moved
 is removed, whatever the other changes are about.
 */
module Inheritance {
  import opened Routes
  import opened Undo
  import opened Connections
  import opened Tracking

  ghost predicate SlotsApart(a: seq<Change>, b: seq<Change>) {
    forall x, y :: x in a && y in b ==>
      SlotOf(x.original) != SlotOf(y.original) && SlotOf(x.replacement) != SlotOf(y.replacement)
  }

  lemma JoinedDistinct(a: seq<Change>, b: seq<Change>)
    requires Distinct(a) && Distinct(b) && SlotsApart(a, b)
    ensures Distinct(a + b) && forall c :: c in a + b <==> c in a || c in b
  {
  }

  /** The changes that are not about the removed connection. */
  function Others(cs: seq<Change>, removed: Conn): seq<Change> {
    if cs == [] then []
    else (if Exists(cs[0].replacement, removed.routes) then [] else [cs[0]]) + Others(cs[1..], removed)
  }

  lemma {:induction false} OthersAre(cs: seq<Change>, removed: Conn)
    ensures forall c :: c in Others(cs, removed) <==> c in cs && !Exists(c.replacement, removed.routes)
  {
    if cs != [] {
      OthersAre(cs[1..], removed);
      assert forall c :: c in cs <==> c == cs[0] || c in cs[1..];
    }
  }

  lemma HeadApart(cs: seq<Change>, removed: Conn)
    requires cs != [] && Distinct(cs)
    ensures SlotsApart([cs[0]], Others(cs[1..], removed))
  {
    OthersAre(cs[1..], removed);
    forall c | c in Others(cs[1..], removed)
      ensures SlotOf(cs[0].original) != SlotOf(c.original) && SlotOf(cs[0].replacement) != SlotOf(c.replacement)
    {
      var i :| 0 <= i < |cs[1..]| && cs[1..][i] == c;
      assert cs[i + 1] == c;
    }
  }

  lemma InheritsFromOne(cs: seq<Change>, removed: Conn)
    requires cs != []
    ensures Inherits(cs, removed) <==> Exists(cs[0].replacement, removed.routes) || Inherits(cs[1..], removed)
  {
    if Inherits(cs[1..], removed) {
      var i :| 0 <= i < |cs[1..]| && Exists(cs[1..][i].replacement, removed.routes);
      assert Exists(cs[i + 1].replacement, removed.routes);
    }
  }

  ghost predicate IsInherited(cs: seq<Change>, removed: Conn, inherited: bool, all: seq<Change>) {
    && Distinct(all)
    && forall c :: c in all <==>
      c in Others(cs, removed) || (!inherited && Inherits(cs, removed) && c in removed.changes)
  }

  lemma HeadInherited(cs: seq<Change>, removed: Conn, inherited: bool, rest: seq<Change>)
    requires cs != [] && Exists(cs[0].replacement, removed.routes)
    requires Distinct(removed.changes) && SlotsApart(Others(cs, removed), removed.changes)
    requires IsInherited(cs[1..], removed, true, rest)
    ensures IsInherited(cs, removed, inherited, (if inherited then [] else removed.changes) + rest)
  {
    InheritsFromOne(cs, removed);
    JoinedDistinct(if inherited then [] else removed.changes, rest);
  }

  lemma HeadKept(cs: seq<Change>, removed: Conn, inherited: bool, rest: seq<Change>)
    requires cs != [] && !Exists(cs[0].replacement, removed.routes) && Distinct(cs)
    requires SlotsApart(Others(cs, removed), removed.changes) && IsInherited(cs[1..], removed, inherited, rest)
    ensures IsInherited(cs, removed, inherited, [cs[0]] + rest)
  {
    HeadIsOther(cs, removed);
    RestApart(cs, removed, inherited, rest);
    JoinedDistinct([cs[0]], rest);
    InheritsFromOne(cs, removed);
  }

  lemma HeadIsOther(cs: seq<Change>, removed: Conn)
    requires cs != [] && !Exists(cs[0].replacement, removed.routes)
    ensures cs[0] in Others(cs, removed)
    ensures forall c :: c in Others(cs, removed) <==> c == cs[0] || c in Others(cs[1..], removed)
  {
    var tail := Others(cs[1..], removed);
    assert Others(cs, removed) == [cs[0]] + tail;
    assert forall c :: c in [cs[0]] + tail <==> c in [cs[0]] || c in tail;
  }

  /** The head is apart from everything that follows it, inherited or not. */
  lemma RestApart(cs: seq<Change>, removed: Conn, inherited: bool, rest: seq<Change>)
    requires cs != [] && Distinct(cs) && cs[0] in Others(cs, removed)
    requires SlotsApart(Others(cs, removed), removed.changes) && IsInherited(cs[1..], removed, inherited, rest)
    ensures SlotsApart([cs[0]], rest)
  {
    HeadApart(cs, removed);
    assert cs[0] in [cs[0]];
  }

  lemma TailDistinct(cs: seq<Change>)
    requires cs != [] && Distinct(cs)
    ensures Distinct(cs[1..])
  {
  }

  lemma TailOthers(cs: seq<Change>, removed: Conn)
    requires cs != []
    ensures forall c :: c in Others(cs[1..], removed) ==> c in Others(cs, removed)
  {
    OthersAre(cs, removed);
    OthersAre(cs[1..], removed);
  }

  lemma FewerApart(a: seq<Change>, fewer: seq<Change>, b: seq<Change>)
    requires SlotsApart(a, b) && forall c :: c in fewer ==> c in a
    ensures SlotsApart(fewer, b)
  {
  }

  /** What is inherited takes the place of what was about the removed connection. */
  lemma {:induction false} InheritedAre(cs: seq<Change>, removed: Conn, inherited: bool)
    requires Distinct(cs) && Distinct(removed.changes) && SlotsApart(Others(cs, removed), removed.changes)
    ensures IsInherited(cs, removed, inherited, InheritedFrom(cs, removed, inherited))
  {
    if cs != [] {
      TailDistinct(cs);
      TailOthers(cs, removed);
      FewerApart(Others(cs, removed), Others(cs[1..], removed), removed.changes);
      if Exists(cs[0].replacement, removed.routes) {
        InheritedAre(cs[1..], removed, true);
        HeadInherited(cs, removed, inherited, InheritedFrom(cs[1..], removed, true));
      } else {
        InheritedAre(cs[1..], removed, inherited);
        HeadKept(cs, removed, inherited, InheritedFrom(cs[1..], removed, inherited));
      }
    }
  }

  lemma InSets(cs: seq<Change>)
    ensures forall c :: c in cs ==> Stored(c.original) in OriginalSet(cs) && Stored(c.replacement) in ReplacementSet(cs)
  {
  }

  /** Each route was moved by one of the changes. */
  ghost predicate AllMoved(routes: seq<Route>, demoted: seq<Route>, cs: seq<Change>) {
    |demoted| == |routes| && forall i :: 0 <= i < |routes| ==> Pairs(routes[i], demoted[i], cs)
  }

  lemma MovedSets(routes: seq<Route>, demoted: seq<Route>, cs: seq<Change>)
    requires AllMoved(routes, demoted, cs)
    ensures StoredSet(routes) <= OriginalSet(cs) && StoredSet(demoted) <= ReplacementSet(cs)
  {
    forall i | 0 <= i < |routes|
      ensures Stored(routes[i]) in OriginalSet(cs) && Stored(demoted[i]) in ReplacementSet(cs)
    {
      var j :| 0 <= j < |cs| && Same(routes[i], cs[j].original) && demoted[i] == cs[j].replacement;
      assert Stored(cs[j].original) in OriginalSet(cs) && Stored(cs[j].replacement) in ReplacementSet(cs);
    }
  }

  /** A change is about a moved route at both ends or at neither. */
  lemma AboutMoved(routes: seq<Route>, demoted: seq<Route>, cs: seq<Change>, c: Change)
    requires AllMoved(routes, demoted, cs) && Distinct(cs) && c in cs
    ensures Exists(c.replacement, demoted) <==> Stored(c.original) in StoredSet(routes)
  {
    var k :| 0 <= k < |cs| && cs[k] == c;
    if i :| 0 <= i < |demoted| && Same(c.replacement, demoted[i]) {
      var j :| 0 <= j < |cs| && Same(routes[i], cs[j].original) && demoted[i] == cs[j].replacement;
      assert SlotOf(cs[k].replacement) == SlotOf(cs[j].replacement);
    }
    if i :| 0 <= i < |routes| && Stored(c.original) == Stored(routes[i]) {
      var j :| 0 <= j < |cs| && Same(routes[i], cs[j].original) && demoted[i] == cs[j].replacement;
      assert SlotOf(cs[k].original) == SlotOf(cs[j].original);
      assert Same(c.replacement, demoted[i]);
    }
  }

  lemma MovedInherits(routes: seq<Route>, cs: seq<Change>, removed: Conn)
    requires routes != [] && AllMoved(routes, removed.routes, cs)
    ensures Inherits(cs, removed)
  {
    assert Pairs(routes[0], removed.routes[0], cs);
    var j :| 0 <= j < |cs| && Same(routes[0], cs[j].original) && removed.routes[0] == cs[j].replacement;
    assert Same(cs[j].replacement, removed.routes[0]);
  }

  lemma ApartByTables(t: Table, u: Table, a: seq<Change>, b: seq<Change>)
    requires forall x :: x in a ==>
      Holds(t, x.original) && Stored(x.original) !in OriginalSet(b) && SlotOf(x.replacement) !in u
    requires forall r :: r in OriginalSet(b) ==> SlotOf(r) in t && t[SlotOf(r)] == r
    requires forall r :: r in ReplacementSet(b) ==> SlotOf(r) in u
    ensures SlotsApart(a, b)
  {
    InSets(b);
  }

  /** Every change of the upper one is inherited or about the lower one's routes. */
  lemma SecondInherited(lows: seq<Route>, removed: Conn, cs: seq<Change>, all: seq<Change>)
    requires AllMoved(lows, removed.routes, cs) && Distinct(cs) && IsInherited(cs, removed, false, all)
    ensures forall r :: r in OriginalSet(cs) ==> r in OriginalSet(all) || r in StoredSet(lows)
    ensures forall r :: r in ReplacementSet(cs) ==> r in ReplacementSet(all) || r in StoredSet(removed.routes)
  {
    InSets(all);
    OthersAre(cs, removed);
    forall j | 0 <= j < |cs|
      ensures Stored(cs[j].original) in OriginalSet(all) || Stored(cs[j].original) in StoredSet(lows)
      ensures Stored(cs[j].replacement) in ReplacementSet(all) || Stored(cs[j].replacement) in StoredSet(removed.routes)
    {
      AboutMoved(lows, removed.routes, cs, cs[j]);
      if Exists(cs[j].replacement, removed.routes) {
        var i :| 0 <= i < |removed.routes| && Same(cs[j].replacement, removed.routes[i]);
        assert Stored(removed.routes[i]) in StoredSet(removed.routes);
      } else {
        assert cs[j] in all;
      }
    }
  }

  lemma FirstInherited(removed: Conn, cs: seq<Change>, all: seq<Change>)
    requires IsInherited(cs, removed, false, all) && Inherits(cs, removed)
    ensures OriginalSet(removed.changes) <= OriginalSet(all) && ReplacementSet(removed.changes) <= ReplacementSet(all)
  {
    InSets(all);
    forall j | 0 <= j < |removed.changes|
      ensures Stored(removed.changes[j].original) in OriginalSet(all)
      ensures Stored(removed.changes[j].replacement) in ReplacementSet(all)
    {
      assert removed.changes[j] in all;
    }
  }
}
