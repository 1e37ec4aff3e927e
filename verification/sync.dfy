/**
 Bringing tracked connections up to date after a takeover, an undo or a
 removal: the loops over the owners, shown to compute what module Connections
 says in one step.
 */
module OwnerSync {
  import opened Routes
  import opened Undo
  import opened Connections
  import opened Tracking

  // ----- following one change on one connection -----

  function Demote1(r: Route, change: Change): Route {
    if Same(r, change.original) then change.replacement else r
  }

  function Restore1(r: Route, change: Change): Route {
    if Same(r, change.replacement) then change.original else r
  }

  /** Metric and flag are as the routes say, if there are any. */
  ghost predicate Reflects(c: Conn) {
    c.routes != [] ==> c == WithRoutes(c, c.routes)
  }

  /** Own interface on every route, metric and flag as the routes say, and changes that stay on one interface. */
  ghost predicate Tidy(c: Conn) {
    && (forall i :: 0 <= i < |c.routes| ==> c.routes[i].iface == c.iface)
    && Reflects(c)
    && Steady(c.changes)
  }

  ghost predicate Steady(cs: seq<Change>) {
    forall i :: 0 <= i < |cs| ==> cs[i].original.iface == cs[i].replacement.iface
  }

  ghost predicate AllTidy(conns: map<string, Conn>) {
    (forall id :: id in conns ==> Tidy(conns[id])) && DistinctIfaces(conns)
  }

  function DemotedBy(routes: seq<Route>, change: Change): seq<Route> {
    seq(|routes|, i requires 0 <= i < |routes| => Demote1(routes[i], change))
  }

  function RestoredBy(routes: seq<Route>, change: Change): seq<Route> {
    seq(|routes|, i requires 0 <= i < |routes| => Restore1(routes[i], change))
  }

  function DemotedOnce(c: Conn, change: Change): Conn {
    if Exists(change.original, c.routes)
    then WithRoutes(c, DemotedBy(c.routes, change))
    else c
  }

  function RestoredOnce(c: Conn, change: Change): Conn {
    if Exists(change.replacement, c.routes)
    then WithRoutes(c, RestoredBy(c.routes, change))
    else c
  }

  method DemoteTrackedRoute(c: Conn, change: Change) returns (d: Conn, updated: bool)
    ensures d == DemotedOnce(c, change) && updated == Exists(change.original, c.routes)
  {
    var routes := c.routes;
    updated := false;
    for i := 0 to |c.routes|
      invariant |routes| == |c.routes|
      invariant forall k :: 0 <= k < |routes| ==>
        routes[k] == if k < i then Demote1(c.routes[k], change) else c.routes[k]
      invariant updated <==> exists k :: 0 <= k < i && Same(change.original, c.routes[k])
    {
      if Same(routes[i], change.original) {
        routes := routes[i := change.replacement];
        updated := true;
      }
    }
    assert routes == DemotedBy(c.routes, change);
    d := if updated then WithRoutes(c, routes) else c;
  }

  method RestoreTrackedRoute(c: Conn, change: Change) returns (d: Conn, updated: bool)
    ensures d == RestoredOnce(c, change) && updated == Exists(change.replacement, c.routes)
  {
    var routes := c.routes;
    updated := false;
    for i := 0 to |c.routes|
      invariant |routes| == |c.routes|
      invariant forall k :: 0 <= k < |routes| ==>
        routes[k] == if k < i then Restore1(c.routes[k], change) else c.routes[k]
      invariant updated <==> exists k :: 0 <= k < i && Same(change.replacement, c.routes[k])
    {
      if Same(routes[i], change.replacement) {
        routes := routes[i := change.original];
        updated := true;
      }
    }
    assert routes == RestoredBy(c.routes, change);
    d := if updated then WithRoutes(c, routes) else c;
  }

  /** Some connection that has the route. */
  method RouteOwner(conns: map<string, Conn>, route: Route) returns (id: string, found: bool)
    ensures found ==> id in conns && Exists(route, conns[id].routes)
    ensures !found ==> forall x :: x in conns ==> !Exists(route, conns[x].routes)
  {
    id, found := "", false;
    var left := conns.Keys;
    while left != {}
      invariant left <= conns.Keys
      invariant forall x :: x in conns.Keys - left ==> !Exists(route, conns[x].routes)
    {
      id :| id in left;
      if Exists(route, conns[id].routes) {
        return id, true;
      }
      left := left - {id};
    }
  }

  // ----- one change at a time equals all changes at once -----

  lemma DemotedRoutesStep(routes: seq<Route>, cs: seq<Change>, i: nat)
    requires i < |cs|
    ensures DemotedRoutes(routes, cs[..i + 1]) == DemotedBy(DemotedRoutes(routes, cs[..i]), cs[i])
  {
    assert cs[..i + 1][..i] == cs[..i];
  }

  lemma NobodyDemoted(routes: seq<Route>, change: Change)
    requires !Exists(change.original, routes)
    ensures DemotedBy(routes, change) == routes
  {
  }

  lemma DemotedStep(c: Conn, cs: seq<Change>, i: nat)
    requires Tidy(c) && i < |cs|
    ensures DemotedConn(c, cs[..i + 1]) == DemotedOnce(DemotedConn(c, cs[..i]), cs[i])
  {
    if c.routes == [] {
      return;
    }
    var before := DemotedConn(c, cs[..i]);
    assert before == WithRoutes(c, DemotedRoutes(c.routes, cs[..i]));
    DemotedRoutesStep(c.routes, cs, i);
    if !Exists(cs[i].original, before.routes) { NobodyDemoted(before.routes, cs[i]); }
  }

  lemma RestoredStep(c: Conn, cs: seq<Change>, i: nat)
    requires Reflects(c) && i < |cs|
    ensures RestoredConn(c, cs[..i + 1]) == RestoredConn(RestoredOnce(c, cs[i]), cs[..i])
    ensures Reflects(RestoredOnce(c, cs[i]))
  {
    RestoredOnceFits(c, cs[i]);
    RestoredFurther(c, cs, i);
    var after := RestoredOnce(c, cs[i]);
    assert c.routes != [] ==>
      WithRoutes(c, RestoredRoutes(after.routes, cs[..i])) == WithRoutes(after, RestoredRoutes(after.routes, cs[..i]));
  }

  lemma RestoredOnceFits(c: Conn, change: Change)
    requires Reflects(c)
    ensures Reflects(RestoredOnce(c, change))
  {
  }

  lemma RestoredFurther(c: Conn, cs: seq<Change>, i: nat)
    requires i < |cs|
    ensures RestoredRoutes(c.routes, cs[..i + 1]) == RestoredRoutes(RestoredOnce(c, cs[i]).routes, cs[..i])
  {
    var after := RestoredOnce(c, cs[i]);
    assert cs[..i + 1][..i] == cs[..i];
    assert forall k :: 0 <= k < |c.routes| ==> after.routes[k] == Restore1(c.routes[k], cs[i]);
    assert RestoredRoutes(c.routes, cs[..i + 1]) == RestoredRoutes(after.routes, cs[..i]);
  }

  // ----- the owner of a route is the one connection on its interface -----

  lemma OnlyOwner(conns: map<string, Conn>, route: Route, id: string, x: string)
    requires DistinctIfaces(conns) && id in conns && x in conns && id != x
    requires forall y, i :: y in conns && 0 <= i < |conns[y].routes| ==> conns[y].routes[i].iface == conns[y].iface
    requires Exists(route, conns[id].routes)
    ensures !Exists(route, conns[x].routes)
  {
    var i :| 0 <= i < |conns[id].routes| && Same(route, conns[id].routes[i]);
  }

  ghost predicate OwnIfaces(conns: map<string, Conn>) {
    && DistinctIfaces(conns)
    && forall y, i :: y in conns && 0 <= i < |conns[y].routes| ==> conns[y].routes[i].iface == conns[y].iface
  }

  lemma DemotedOnceOwn(c: Conn, change: Change)
    requires forall i :: 0 <= i < |c.routes| ==> c.routes[i].iface == c.iface
    requires change.original.iface == change.replacement.iface
    ensures var d := DemotedOnce(c, change);
      d.iface == c.iface && d.changes == c.changes && forall i :: 0 <= i < |d.routes| ==> d.routes[i].iface == d.iface
    ensures var d := RestoredOnce(c, change);
      d.iface == c.iface && d.changes == c.changes && forall i :: 0 <= i < |d.routes| ==> d.routes[i].iface == d.iface
  {
  }

  /** Demoting only the owner is demoting everywhere. */
  method DemoteOwner(conns: map<string, Conn>, change: Change) returns (next: map<string, Conn>, updated: bool)
    requires OwnIfaces(conns) && change.original.iface == change.replacement.iface
    ensures next == map x | x in conns :: DemotedOnce(conns[x], change)
    ensures OwnIfaces(next)
    ensures !updated ==> next == conns
  {
    next, updated := conns, false;
    var id, found := RouteOwner(conns, change.original);
    if found {
      var d, changed := DemoteTrackedRoute(conns[id], change);
      next, updated := conns[id := d], changed;
      forall x | x in conns && x != id ensures DemotedOnce(conns[x], change) == conns[x] {
        OnlyOwner(conns, change.original, id, x);
      }
    }
    forall x | x in conns ensures next[x] == DemotedOnce(conns[x], change) && next[x].iface == conns[x].iface
      && forall i :: 0 <= i < |next[x].routes| ==> next[x].routes[i].iface == next[x].iface
    {
      DemotedOnceOwn(conns[x], change);
    }
  }

  method RestoreOwner(conns: map<string, Conn>, change: Change) returns (next: map<string, Conn>)
    requires OwnIfaces(conns) && change.original.iface == change.replacement.iface
    ensures next == map x | x in conns :: RestoredOnce(conns[x], change)
    ensures OwnIfaces(next)
  {
    next := conns;
    var id, found := RouteOwner(conns, change.replacement);
    if found {
      var d, _ := RestoreTrackedRoute(conns[id], change);
      next := conns[id := d];
      forall x | x in conns && x != id ensures RestoredOnce(conns[x], change) == conns[x] {
        OnlyOwner(conns, change.replacement, id, x);
      }
    }
    forall x | x in conns ensures next[x] == RestoredOnce(conns[x], change) && next[x].iface == conns[x].iface
      && forall i :: 0 <= i < |next[x].routes| ==> next[x].routes[i].iface == next[x].iface
    {
      DemotedOnceOwn(conns[x], change);
    }
  }

  lemma DemotedStepAll(conns: map<string, Conn>, cs: seq<Change>, i: nat, now: map<string, Conn>)
    requires AllTidy(conns) && i < |cs| && now == AllDemoted(conns, cs[..i])
    ensures (map x | x in now :: DemotedOnce(now[x], cs[i])) == AllDemoted(conns, cs[..i + 1])
  {
    forall x | x in conns ensures DemotedConn(conns[x], cs[..i + 1]) == DemotedOnce(now[x], cs[i]) {
      DemotedStep(conns[x], cs, i);
    }
  }

  lemma NothingDemoted(conns: map<string, Conn>)
    ensures conns == AllDemoted(conns, [])
    ensures conns == AllRestored(conns, [])
  {
    forall x | x in conns ensures DemotedConn(conns[x], []) == conns[x] && RestoredConn(conns[x], []) == conns[x] {
      assert DemotedRoutes(conns[x].routes, []) == conns[x].routes;
      assert RestoredRoutes(conns[x].routes, []) == conns[x].routes;
    }
  }

  method DemoteOwners(conns: map<string, Conn>, cs: seq<Change>) returns (next: map<string, Conn>, affected: bool)
    requires AllTidy(conns) && Steady(cs)
    ensures next == AllDemoted(conns, cs)
    ensures !affected ==> next == conns
  {
    next, affected := conns, false;
    NothingDemoted(conns);
    assert cs[..|cs|] == cs;
    for i := 0 to |cs|
      invariant next == AllDemoted(conns, cs[..i])
      invariant OwnIfaces(next)
      invariant !affected ==> next == conns
    {
      DemotedStepAll(conns, cs, i, next);
      var updated;
      next, updated := DemoteOwner(next, cs[i]);
      affected := affected || updated;
    }
  }

  /** Restoring the first i changes on now would give what restoring all of cs on conns gives. */
  ghost predicate Toward(now: map<string, Conn>, conns: map<string, Conn>, cs: seq<Change>, i: nat)
    requires i <= |cs|
  {
    && now.Keys == conns.Keys
    && forall x :: x in now ==>
      Reflects(now[x]) && RestoredConn(now[x], cs[..i]) == RestoredConn(conns[x], cs)
  }

  lemma RestoredStepAll(now: map<string, Conn>, conns: map<string, Conn>, cs: seq<Change>, i: nat)
    requires i < |cs| && Toward(now, conns, cs, i + 1)
    ensures Toward(map x | x in now :: RestoredOnce(now[x], cs[i]), conns, cs, i)
  {
    forall x | x in now
      ensures RestoredConn(RestoredOnce(now[x], cs[i]), cs[..i]) == RestoredConn(conns[x], cs)
        && Reflects(RestoredOnce(now[x], cs[i]))
    {
      RestoredStep(now[x], cs, i);
    }
  }

  lemma TowardEnds(now: map<string, Conn>, conns: map<string, Conn>, cs: seq<Change>)
    ensures Toward(now, conns, cs, 0) ==> now == AllRestored(conns, cs)
    ensures AllTidy(conns) ==> Toward(conns, conns, cs, |cs|)
  {
    assert cs[..|cs|] == cs;
    NothingDemoted(now);
  }

  method RestoreOwners(conns: map<string, Conn>, cs: seq<Change>) returns (next: map<string, Conn>)
    requires AllTidy(conns) && Steady(cs)
    ensures next == AllRestored(conns, cs)
  {
    next := conns;
    var i := |cs|;
    TowardEnds(conns, conns, cs);
    while i > 0
      invariant 0 <= i <= |cs| && OwnIfaces(next) && Toward(next, conns, cs, i)
    {
      i := i - 1;
      RestoredStepAll(next, conns, cs, i);
      next := RestoreOwner(next, cs[i]);
    }
    TowardEnds(next, conns, cs);
  }

  // ----- inheriting -----

  /** next, with what the changes from i on give, is what all of them give. */
  ghost predicate Pending(next: seq<Change>, changes: seq<Change>, i: nat, removed: Conn, inherited: bool) {
    i <= |changes| && next + InheritedFrom(changes[i..], removed, inherited) == InheritedFrom(changes, removed, false)
  }

  lemma InheritStep(next: seq<Change>, changes: seq<Change>, i: nat, removed: Conn, inherited: bool, gone: bool,
                    after: seq<Change>)
    requires i < |changes| && gone == Exists(changes[i].replacement, removed.routes)
    requires Pending(next, changes, i, removed, inherited)
    requires after == next + if !gone then [changes[i]] else if inherited then [] else removed.changes
    ensures Pending(after, changes, i + 1, removed, inherited || gone)
  {
    assert changes[i..][0] == changes[i] && changes[i..][1..] == changes[i + 1..];
    Gather(next, if !gone then [changes[i]] else if inherited then [] else removed.changes,
           InheritedFrom(changes[i + 1..], removed, inherited || gone));
  }

  lemma InheritsOne(changes: seq<Change>, i: nat, removed: Conn, gone: bool)
    requires i < |changes| && gone == Exists(changes[i].replacement, removed.routes)
    ensures Inherits(changes[..i + 1], removed) <==> Inherits(changes[..i], removed) || gone
  {
    assert changes[..i + 1][i] == changes[i];
    assert forall k :: 0 <= k < i ==> changes[..i + 1][k] == changes[..i][k];
  }

  lemma Gather(a: seq<Change>, b: seq<Change>, c: seq<Change>)
    ensures a + (b + c) == a + b + c
  {
  }

  method DefaultRouteChangesAfterRemoval(changes: seq<Change>, removed: Conn) returns (next: seq<Change>, changed: bool)
    ensures changed == Inherits(changes, removed)
    ensures next == InheritedFrom(changes, removed, false)
  {
    next, changed := [], false;
    var inherited := false;
    assert changes[0..] == changes;
    for i := 0 to |changes|
      invariant Pending(next, changes, i, removed, inherited)
      invariant changed == inherited && changed == Inherits(changes[..i], removed)
    {
      var gone := Exists(changes[i].replacement, removed.routes);
      ghost var before, was := next, inherited;
      if gone {
        changed := true;
        if !inherited {
          next := next + removed.changes;
          inherited := true;
        }
      } else {
        next := next + [changes[i]];
      }
      InheritStep(before, changes, i, removed, was, gone, next);
      InheritsOne(changes, i, removed, gone);
    }
    assert changes[..|changes|] == changes;
  }

  /** The owners that inherit, with their new change lists. */
  method Heirs(conns: map<string, Conn>, removed: Conn) returns (affected: map<string, Conn>)
    ensures forall x :: x in affected <==> Rewrites(conns, x, removed)
    ensures forall x :: x in affected ==> x in conns && affected[x] == HeirOf(conns[x], removed)
  {
    affected := map[];
    var left := conns.Keys;
    while left != {}
      invariant left <= conns.Keys
      invariant forall x :: x in affected <==> x !in left && Rewrites(conns, x, removed)
      invariant forall x :: x in affected ==> x in conns && affected[x] == HeirOf(conns[x], removed)
    {
      var id :| id in left;
      left := left - {id};
      if conns[id].iface != removed.iface {
        var next, changed := DefaultRouteChangesAfterRemoval(conns[id].changes, removed);
        if changed {
          affected := affected[id := conns[id].(changes := next)];
        }
      }
    }
  }
}
