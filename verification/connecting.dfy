/** Every connect, default-route or secondary, keeps the invariant of module Tracking. */
module Connecting {
  import opened Routes
  import opened Undo
  import opened Demotion
  import opened Connections
  import opened Tracking

  /** Neither the modem nor the bearer's interface is tracked yet. */
  ghost predicate Fresh(conns: map<string, Conn>, id: string, b: Bearer) {
    id !in conns && forall x :: x in conns ==> conns[x].iface != b.iface
  }

  ghost predicate OneLinkEach(b: Bearer, families: seq<int>) {
    |b.links| == |families| && forall i :: 0 <= i < |families| ==> b.links[i].family == families[i]
  }

  lemma NewConn(b: Bearer, families: seq<int>, metric: nat, cs: seq<Change>)
    requires b.links != []
    ensures var c := Conn(b.iface, RoutesFor(b, metric), metric, metric <= DEFAULT_METRIC, cs);
      Formed(c) && AllAt(c, metric) && (OneLinkEach(b, families) ==> Shaped(c, families))
  {
    var routes := RoutesFor(b, metric);
    assert routes[0].iface == b.iface;
  }

  // ----- what a successful takeover has moved -----

  /** The plan moves exactly the routes of the families at the default metric or below. */
  ghost predicate Clears(t: Table, families: seq<int>, cs: seq<Change>) {
    && Planned(t, cs)
    && Lowering(cs)
    && forall s :: s in t ==> (InFamilies(s, families) <==> s in Originals(cs))
  }

  lemma CompetitorsAtDefault(r: Route, b: Bearer, families: seq<int>)
    requires OneLinkEach(b, families)
    ensures Competes(r, RoutesFor(b, DEFAULT_METRIC)) <==>
            InFamilies(SlotOf(r), families) && !Exists(r, RoutesFor(b, DEFAULT_METRIC))
  {
    var preferred := RoutesFor(b, DEFAULT_METRIC);
    if r.family in families {
      var i :| 0 <= i < |families| && families[i] == r.family;
      assert preferred[i].family == r.family;
    }
    forall i | 0 <= i < |preferred| ensures preferred[i].family in families && preferred[i].metric == DEFAULT_METRIC {
      assert preferred[i].family == families[i];
    }
  }

  /**
   The takeover frees every slot of the new default routes but those that hold
   the very same route; so a default connect is refused exactly if the table
   already has one of its routes.
   */
  lemma RefusedExactlyIfHeld(t: Table, b: Bearer, families: seq<int>, current: seq<Route>)
    requires Proper(t) && Lists(current, t) && GoodFamilies(families) && OneLinkEach(b, families)
    ensures var preferred := RoutesFor(b, DEFAULT_METRIC);
      CanInsertAll(MovedAll(t, Changes(current, preferred)), preferred) <==>
      forall i :: 0 <= i < |preferred| ==> !Holds(t, preferred[i])
  {
    var preferred := RoutesFor(b, DEFAULT_METRIC);
    var u := MovedAll(t, Changes(current, preferred));
    forall i | 0 <= i < |preferred| ensures SlotOf(preferred[i]) in u <==> Holds(t, preferred[i]) {
      StaysExactlyIfHeld(t, b, families, current, i);
    }
    forall i, j | 0 <= i < j < |preferred| ensures SlotOf(preferred[i]) != SlotOf(preferred[j]) {
      assert preferred[i].family == families[i] && preferred[j].family == families[j];
    }
  }

  lemma StaysExactlyIfHeld(t: Table, b: Bearer, families: seq<int>, current: seq<Route>, i: nat)
    requires Proper(t) && Lists(current, t) && GoodFamilies(families) && OneLinkEach(b, families) && i < |families|
    ensures var preferred := RoutesFor(b, DEFAULT_METRIC);
      SlotOf(preferred[i]) in MovedAll(t, Changes(current, preferred)) <==> Holds(t, preferred[i])
  {
    var preferred := RoutesFor(b, DEFAULT_METRIC);
    var cs, s := Changes(current, preferred), SlotOf(preferred[i]);
    ChangesArePlanned(t, current, preferred);
    MovedAllSlots(t, cs);
    assert s !in Replacements(cs) by {
      forall k | 0 <= k < |cs| ensures SlotOf(cs[k].replacement) != s {
        assert Demotes(cs[k]);
      }
    }
    if s in t {
      assert s.family == families[i];
      CompetitorsAtDefault(t[s], b, families);
      OnlySameInSlot(t[s], b, families, i);
    }
  }

  /** Of the new default routes, a route of the table can only be the one for its own slot. */
  lemma OnlySameInSlot(r: Route, b: Bearer, families: seq<int>, i: nat)
    requires GoodFamilies(families) && OneLinkEach(b, families) && i < |families|
    requires SlotOf(r) == SlotOf(RoutesFor(b, DEFAULT_METRIC)[i])
    ensures Exists(r, RoutesFor(b, DEFAULT_METRIC)) <==> Same(r, RoutesFor(b, DEFAULT_METRIC)[i])
  {
    var preferred := RoutesFor(b, DEFAULT_METRIC);
    forall j | 0 <= j < |preferred| && Same(r, preferred[j]) ensures j == i {
      assert preferred[j].family == families[j] && preferred[i].family == families[i];
    }
  }

  /**
   With none of the new routes in the table, the takeover moves every route of
   the families at the default metric or below, and frees the slots.
   */
  lemma TakeoverClears(t: Table, b: Bearer, families: seq<int>, current: seq<Route>)
    requires Proper(t) && Lists(current, t) && GoodFamilies(families) && OneLinkEach(b, families)
    requires forall i :: 0 <= i < |families| ==> !Holds(t, RoutesFor(b, DEFAULT_METRIC)[i])
    ensures var preferred := RoutesFor(b, DEFAULT_METRIC);
      && CanInsertAll(MovedAll(t, Changes(current, preferred)), preferred)
      && Clears(t, families, Changes(current, preferred))
  {
    var preferred := RoutesFor(b, DEFAULT_METRIC);
    var cs := Changes(current, preferred);
    RefusedExactlyIfHeld(t, b, families, current);
    ChangesArePlanned(t, current, preferred);
    MovedAllSlots(t, cs);
    forall s | s in t ensures InFamilies(s, families) <==> s in Originals(cs) {
      CompetitorsAtDefault(t[s], b, families);
    }
    forall i | 0 <= i < |cs| ensures cs[i].original.metric <= DEFAULT_METRIC {
      CompetitorsAtDefault(cs[i].original, b, families);
    }
  }

  lemma ClearedOriginals(t: Table, families: seq<int>, cs: seq<Change>)
    requires Clears(t, families, cs)
    ensures forall r :: r in OriginalSet(cs) <==> SlotOf(r) in t && t[SlotOf(r)] == r && InFamilies(SlotOf(r), families)
  {
    forall r | r in OriginalSet(cs) ensures SlotOf(r) in t && t[SlotOf(r)] == r && InFamilies(SlotOf(r), families) {
      var i :| 0 <= i < |cs| && r == Stored(cs[i].original);
      assert Holds(t, cs[i].original) && SlotOf(r) in Originals(cs);
    }
    forall r | SlotOf(r) in t && t[SlotOf(r)] == r && InFamilies(SlotOf(r), families) ensures r in OriginalSet(cs) {
      var i :| 0 <= i < |cs| && SlotOf(cs[i].original) == SlotOf(r);
      assert Holds(t, cs[i].original);
    }
  }

  // ----- the first takeover -----

  lemma FirstMoves(t: Table, base: Table, families: seq<int>, conns: map<string, Conn>, cs: seq<Change>)
    requires Clears(t, families, cs) && Proper(base) && Laid(t, base, Tracked(conns))
    requires forall x :: x in conns ==> AllBehind(conns[x])
    ensures Displaced(base, families, cs) && Laid(MovedAll(t, cs), MovedAll(base, cs), Tracked(conns))
    ensures forall x :: x in conns ==> DemotedConn(conns[x], cs) == conns[x]
  {
    ClearedOriginals(t, families, cs);
    BehindTracked(conns, families);
    LaidHostMoved(t, base, Tracked(conns), cs);
    forall x | x in conns ensures DemotedConn(conns[x], cs) == conns[x] {
      forall r | r in StoredSet(conns[x].routes) ensures r in Tracked(conns) {
      }
      UntouchedByDemotion(conns[x], cs);
    }
  }

  // ----- a takeover from another connection -----

  lemma TopIsAllThatMoves(t: Table, host: Table, families: seq<int>, conns: map<string, Conn>, top: string,
                          cs: seq<Change>)
    requires Clears(t, families, cs) && Laid(t, host, Tracked(conns)) && top in conns
    requires forall s :: s in host ==> !InFamilies(s, families)
    requires forall x :: x in conns && x != top ==> AllBehind(conns[x])
    requires Shaped(conns[top], families) && AllAt(conns[top], DEFAULT_METRIC)
    ensures OriginalSet(cs) == StoredSet(conns[top].routes)
  {
    ClearedOriginals(t, families, cs);
    OwnFamilies(conns[top], families);
    forall r | r in OriginalSet(cs) ensures r in StoredSet(conns[top].routes) {
      assert r in Tracked(conns);
      var x :| x in conns && r in StoredSet(conns[x].routes);
      var i :| 0 <= i < |conns[x].routes| && r == Stored(conns[x].routes[i]);
    }
    forall r | r in StoredSet(conns[top].routes) ensures r in OriginalSet(cs) {
      assert r in Tracked(conns);
      var i :| 0 <= i < |conns[top].routes| && r == Stored(conns[top].routes[i]);
    }
  }

  lemma OnlyTopDemoted(conns: map<string, Conn>, top: string, cs: seq<Change>)
    requires AllFormed(conns) && top in conns && OriginalSet(cs) == StoredSet(conns[top].routes)
    ensures forall x :: x in conns && x != top ==> DemotedConn(conns[x], cs) == conns[x]
  {
    FormedApart(conns, top);
    forall x | x in conns && x != top ensures DemotedConn(conns[x], cs) == conns[x] {
      UntouchedByDemotion(conns[x], cs);
    }
  }

  lemma NextMoves(t: Table, host: Table, families: seq<int>, conns: map<string, Conn>, top: string, cs: seq<Change>)
    requires Planned(t, cs) && Lowering(cs) && Laid(t, host, Tracked(conns)) && AllFormed(conns)
    requires top in conns && Shaped(conns[top], families) && AllAt(conns[top], DEFAULT_METRIC) &&
      OriginalSet(cs) == StoredSet(conns[top].routes)
    ensures var u := conns[top := DemotedConn(conns[top], cs)];
      Laid(MovedAll(t, cs), host, Tracked(u))
  {
    FormedApart(conns, top);
    TrackedWithout(conns, top);
    TopDemoted(conns[top], families, cs);
    TrackedReplaced(conns, top, DemotedConn(conns[top], cs));
    LaidMoved(t, host, Tracked(conns), cs);
  }

  // ----- the stack with a new top -----

  lemma Appended(stack: seq<string>, id: string)
    requires NoRepeats(stack) && id !in stack
    ensures var up := stack + [id];
      && NoRepeats(up)
      && (forall x :: x in up <==> x in stack || x == id)
      && (forall x :: IsTop(up, x) <==> x == id)
  {
  }

  /** d is the old connections, the old top demoted by the new one's changes. */
  ghost predicate Covers(conns: map<string, Conn>, stack: seq<string>, d: map<string, Conn>, families: seq<int>,
                         cs: seq<Change>) {
    && d.Keys == conns.Keys
    && (forall x :: x in d ==> d[x].iface == conns[x].iface && d[x].changes == conns[x].changes)
    && (forall x :: x in d && !IsTop(stack, x) ==> d[x] == conns[x])
    && (forall x :: x in d && IsTop(stack, x) ==> Shaped(d[x], families) && AllBehind(d[x]) && Linked(d[x], cs))
  }

  lemma CoveredStack(conns: map<string, Conn>, stack: seq<string>, d: map<string, Conn>, families: seq<int>,
                     id: string, c: Conn)
    requires Stacked(conns, stack) && Covers(conns, stack, d, families, c.changes) && id !in conns &&
      AllAt(c, DEFAULT_METRIC)
    ensures Stacked(d[id := c], stack + [id])
  {
    Appended(stack, id);
  }

  lemma CoveredLinks(conns: map<string, Conn>, stack: seq<string>, d: map<string, Conn>, families: seq<int>,
                     id: string, c: Conn)
    requires NoRepeats(stack) && (forall x :: x in stack ==> x in conns) && id !in conns
    requires AllLinked(conns, stack) && Covers(conns, stack, d, families, c.changes)
    ensures (forall x :: x in stack + [id] ==> x in d[id := c]) && AllLinked(d[id := c], stack + [id])
  {
    Appended(stack, id);
    var u, up := d[id := c], stack + [id];
    forall k | 0 < k < |up| ensures Linked(u[up[k - 1]], u[up[k]].changes) {
      if k < |stack| {
        assert Linked(conns[stack[k - 1]], conns[stack[k]].changes);
        assert !IsTop(stack, stack[k - 1]);
      } else {
        assert IsTop(stack, up[k - 1]);
      }
    }
  }

  lemma CoveredShape(conns: map<string, Conn>, stack: seq<string>, d: map<string, Conn>, families: seq<int>,
                     id: string, c: Conn)
    requires AllFormed(conns) && StackShaped(conns, families, stack) && Covers(conns, stack, d, families, c.changes)
    requires id !in conns && Shaped(c, families) && forall x :: x in conns ==> conns[x].iface != c.iface
    ensures AllFormed(d[id := c]) && StackShaped(d[id := c], families, stack + [id])
  {
    var u := d[id := c];
    forall x | x in u ensures Formed(u[x]) {
      if x != id && !IsTop(stack, x) { assert Formed(conns[x]); }
    }
    forall x | x in stack + [id] ensures x in u && Shaped(u[x], families) {
      if x != id && !IsTop(stack, x) { assert x in stack && Shaped(conns[x], families); }
    }
  }

  /** Covering the old top with a new connection keeps the nesting and the host's part. */
  lemma CoveredNest(conns: map<string, Conn>, base: Table, stack: seq<string>, d: map<string, Conn>,
                    families: seq<int>, id: string, c: Conn)
    requires Nested(conns, base, families, stack) && Covers(conns, stack, d, families, c.changes)
    requires id !in conns && Shaped(c, families) && AllAt(c, DEFAULT_METRIC)
    requires forall x :: x in conns ==> conns[x].iface != c.iface
    requires stack == [] ==> Displaced(base, families, c.changes)
    ensures var u := d[id := c];
      && Nested(u, base, families, stack + [id])
      && Host(base, u, stack + [id]) == if stack == [] then MovedAll(base, c.changes) else Host(base, conns, stack)
  {
    CoveredShape(conns, stack, d, families, id, c);
    CoveredStack(conns, stack, d, families, id, c);
    CoveredLinks(conns, stack, d, families, id, c);
  }

  lemma JournalWith(journal: map<string, Entry>, conns: map<string, Conn>, d: map<string, Conn>, id: string, c: Conn,
                    e: Entry)
    requires Journalled(journal, conns) && d.Keys == conns.Keys && id !in conns
    requires forall x :: x in d ==> d[x].iface == conns[x].iface && d[x].changes == conns[x].changes
    requires forall x :: x in conns ==> conns[x].iface != c.iface
    requires e.modem == id && e.changes == c.changes
    ensures Journalled(if c.changes == [] then journal else journal[c.iface := e], d[id := c])
  {
    var u, j := d[id := c], if c.changes == [] then journal else journal[c.iface := e];
    forall x | x in u ensures Recorded(j, x, u[x]) {
      if x != id {
        assert Recorded(journal, x, conns[x]);
      } else if c.iface in journal {
        assert Names(conns, c.iface);
      }
    }
    forall name | name in j ensures Names(u, name) {
      if name in journal {
        var x :| x in conns && conns[x].iface == name;
        assert x in u && u[x].iface == name;
      } else {
        assert u[id].iface == name;
      }
    }
  }

  // ----- connecting as default route -----

  lemma TakeoverFromHost(t: Table, base: Table, families: seq<int>, conns: map<string, Conn>, cs: seq<Change>)
    requires Proper(base) && Nested(conns, base, families, [])
    requires Laid(t, base, Tracked(conns)) && Clears(t, families, cs)
    ensures AllDemoted(conns, cs) == conns && Covers(conns, [], conns, families, cs)
    ensures Displaced(base, families, cs) && Laid(MovedAll(t, cs), MovedAll(base, cs), Tracked(conns))
  {
    FirstMoves(t, base, families, conns, cs);
    assert AllDemoted(conns, cs) == conns;
  }

  lemma TakeoverFromTop(t: Table, base: Table, families: seq<int>, conns: map<string, Conn>, stack: seq<string>,
                        cs: seq<Change>)
    requires Nested(conns, base, families, stack) && stack != []
    requires Laid(t, Host(base, conns, stack), Tracked(conns)) && Clears(t, families, cs)
    ensures OriginalSet(cs) == StoredSet(conns[stack[|stack| - 1]].routes)
  {
    var top := stack[|stack| - 1];
    HostBehind(base, families, conns[stack[0]].changes);
    assert IsTop(stack, top);
    TopIsAllThatMoves(t, MovedAll(base, conns[stack[0]].changes), families, conns, top, cs);
  }

  lemma DemotedIsUpdate(conns: map<string, Conn>, top: string, cs: seq<Change>)
    requires top in conns && forall x :: x in conns && x != top ==> DemotedConn(conns[x], cs) == conns[x]
    ensures AllDemoted(conns, cs) == conns[top := DemotedConn(conns[top], cs)]
  {
    assert AllDemoted(conns, cs).Keys == conns[top := DemotedConn(conns[top], cs)].Keys;
  }

  lemma TopCovered(conns: map<string, Conn>, families: seq<int>, stack: seq<string>, top: string, d: Conn,
                   cs: seq<Change>)
    requires top in conns && IsTop(stack, top)
    requires Shaped(d, families) && AllBehind(d) && Linked(d, cs)
    requires d.iface == conns[top].iface && d.changes == conns[top].changes
    ensures Covers(conns, stack, conns[top := d], families, cs)
  {
  }

  /** The table after the takeover, and the old connections under the new one. */
  lemma TakeoverLaid(t: Table, base: Table, families: seq<int>, conns: map<string, Conn>, stack: seq<string>,
                     cs: seq<Change>)
    requires Proper(base) && Nested(conns, base, families, stack)
    requires Laid(t, Host(base, conns, stack), Tracked(conns)) && Clears(t, families, cs)
    ensures Covers(conns, stack, AllDemoted(conns, cs), families, cs)
    ensures stack == [] ==> Displaced(base, families, cs)
    ensures var host := if stack == [] then MovedAll(base, cs) else Host(base, conns, stack);
      Laid(MovedAll(t, cs), host, Tracked(AllDemoted(conns, cs)))
  {
    if stack == [] {
      TakeoverFromHost(t, base, families, conns, cs);
    } else {
      var top := stack[|stack| - 1];
      TakeoverFromTop(t, base, families, conns, stack, cs);
      OnlyTopDemoted(conns, top, cs);
      DemotedIsUpdate(conns, top, cs);
      TopDemoted(conns[top], families, cs);
      TopCovered(conns, families, stack, top, DemotedConn(conns[top], cs), cs);
      NextMoves(t, Host(base, conns, stack), families, conns, stack[|stack| - 1], cs);
    }
  }

  lemma DefaultConnectKeeps(s: State, base: Table, families: seq<int>, stack: seq<string>, id: string, b: Bearer,
                            current: seq<Route>)
    requires Inv(s, base, families, stack) && Fresh(s.conns, id, b) && OneLinkEach(b, families) &&
      Lists(current, s.table)
    requires forall i :: 0 <= i < |families| ==> !Holds(s.table, RoutesFor(b, DEFAULT_METRIC)[i])
    ensures Inv(ConnectedAsDefault(s, id, b, current), base, families, stack + [id])
  {
    var preferred := RoutesFor(b, DEFAULT_METRIC);
    var cs := Changes(current, preferred);
    var c := Conn(b.iface, preferred, DEFAULT_METRIC, true, cs);
    TakeoverClears(s.table, b, families, current);
    TakeoverLaid(s.table, base, families, s.conns, stack, cs);
    NewConn(b, families, DEFAULT_METRIC, cs);
    CoveredInv(s, base, families, stack, MovedAll(s.table, cs), AllDemoted(s.conns, cs), id, c,
      Entry(id, preferred, cs));
  }

  /** The moved table with the new routes, over the covered stack. */
  lemma CoveredInv(s: State, base: Table, families: seq<int>, stack: seq<string>,
                   moved: Table, d: map<string, Conn>, id: string, c: Conn, e: Entry)
    requires Inv(s, base, families, stack) && id !in s.conns && forall x :: x in s.conns ==> s.conns[x].iface != c.iface
    requires Covers(s.conns, stack, d, families, c.changes) && Shaped(c, families) && AllAt(c, DEFAULT_METRIC)
    requires stack == [] ==> Displaced(base, families, c.changes)
    requires CanInsertAll(moved, c.routes) && e.modem == id && e.changes == c.changes
    requires Laid(moved, if stack == [] then MovedAll(base, c.changes) else Host(base, s.conns, stack), Tracked(d))
    ensures var journal := if c.changes == [] then s.journal else s.journal[c.iface := e];
      Inv(State(InsertedAll(moved, c.routes), journal, d[id := c]), base, families, stack + [id])
  {
    CoveredNest(s.conns, base, stack, d, families, id, c);
    JournalWith(s.journal, s.conns, d, id, c, e);
    TrackedWith(d, id, c);
    LaidWith(moved, Host(base, d[id := c], stack + [id]), Tracked(d), c.routes);
  }

  // ----- connecting as secondary -----

  lemma AlwaysInsertable(t: Table, current: seq<Route>, b: Bearer, metric: nat)
    requires Proper(t) && Lists(current, t)
    requires IsLeastFreeInAll(Slots(current), Families(RoutesFor(b, 0)), SECONDARY_METRIC, metric)
    ensures CanInsertAll(t, RoutesFor(b, metric)) <==> OncePerFamily(b)
  {
    ListedSlots(current, t);
    var routes := RoutesFor(b, metric);
    forall i | 0 <= i < |routes| ensures SlotOf(routes[i]) !in t && routes[i].family == b.links[i].family {
      assert RoutesFor(b, 0)[i].family in Families(RoutesFor(b, 0));
      assert SlotOf(routes[i]) == Slot(routes[i].family, metric);
    }
    if CanInsertAll(t, routes) {
      forall i, j | 0 <= i < j < |b.links| ensures b.links[i].family != b.links[j].family {
        assert SlotOf(routes[i]) != SlotOf(routes[j]);
      }
    }
  }

  lemma SecondaryNest(conns: map<string, Conn>, base: Table, stack: seq<string>, families: seq<int>, id: string,
                      c: Conn)
    requires Nested(conns, base, families, stack) && id !in conns && Formed(c) && AllBehind(c) && c.changes == []
    requires forall x :: x in conns ==> conns[x].iface != c.iface
    ensures Nested(conns[id := c], base, families, stack) &&
      Host(base, conns[id := c], stack) == Host(base, conns, stack)
  {
    SecondaryStack(conns, stack, id, c);
    SecondaryShape(conns, families, stack, id, c);
    SameBottom(conns, base, families, stack, conns[id := c], stack);
  }

  lemma SecondaryShape(conns: map<string, Conn>, families: seq<int>, stack: seq<string>, id: string, c: Conn)
    requires AllFormed(conns) && StackShaped(conns, families, stack) && Formed(c) && id !in conns
    requires forall x :: x in conns ==> conns[x].iface != c.iface
    ensures AllFormed(conns[id := c]) && StackShaped(conns[id := c], families, stack)
  {
  }

  lemma SecondaryStack(conns: map<string, Conn>, stack: seq<string>, id: string, c: Conn)
    requires Stacked(conns, stack) && AllLinked(conns, stack) && id !in conns && AllBehind(c) && c.changes == []
    ensures Stacked(conns[id := c], stack) && AllLinked(conns[id := c], stack)
  {
    var u := conns[id := c];
    forall k | 0 < k < |stack| ensures Linked(u[stack[k - 1]], u[stack[k]].changes) {
      assert Linked(conns[stack[k - 1]], conns[stack[k]].changes);
    }
  }

  lemma SecondaryConnectKeeps(s: State, base: Table, families: seq<int>, stack: seq<string>, id: string, b: Bearer,
                              metric: nat)
    requires Inv(s, base, families, stack) && Fresh(s.conns, id, b) && b.links != [] && metric > DEFAULT_METRIC
    requires CanInsertAll(s.table, RoutesFor(b, metric))
    ensures Inv(ConnectedAsSecondary(s, id, b, metric), base, families, stack)
  {
    var routes := RoutesFor(b, metric);
    var c := Conn(b.iface, routes, metric, false, []);
    NewConn(b, families, metric, []);
    SecondaryNest(s.conns, base, stack, families, id, c);
    JournalWith(s.journal, s.conns, s.conns, id, c, Entry(id, routes, []));
    TrackedWith(s.conns, id, c);
    LaidWith(s.table, Host(base, s.conns, stack), Tracked(s.conns), routes);
  }

  // ----- when a connect has an effect -----

  ghost predicate OncePerFamily(b: Bearer) {
    forall i, j :: 0 <= i < j < |b.links| ==> b.links[i].family != b.links[j].family
  }

  /** The modem has its connection, and nobody else's is gone. */
  ghost predicate Gains(conns: map<string, Conn>, id: string, b: Bearer, asDefault: bool, u: map<string, Conn>) {
    && u.Keys == conns.Keys + {id}
    && u[id].iface == b.iface && u[id].isDefault == asDefault && u[id].routes == RoutesFor(b, u[id].metric)
  }

  /** Somebody is the default already, or none of the new default routes is the host's. */
  ghost predicate TakesEffect(conns: map<string, Conn>, base: Table, b: Bearer, asDefault: bool) {
    if asDefault then (exists x :: x in conns && conns[x].isDefault) || NotTheHosts(base, RoutesFor(b, DEFAULT_METRIC))
    else OncePerFamily(b)
  }

  ghost predicate NotTheHosts(base: Table, routes: seq<Route>) {
    forall i :: 0 <= i < |routes| ==> !Holds(base, routes[i])
  }

  lemma DefaultIsTop(s: State, base: Table, families: seq<int>, stack: seq<string>)
    requires Inv(s, base, families, stack)
    ensures stack != [] <==> exists x :: x in s.conns && s.conns[x].isDefault
  {
    if stack != [] {
      var x := stack[|stack| - 1];
      assert IsTop(stack, x);
      FlagOf(s.conns[x]);
    }
    forall x | x in s.conns && stack == [] ensures !s.conns[x].isDefault {
      FlagOf(s.conns[x]);
    }
  }

  lemma NobodyElses(conns: map<string, Conn>, r: Route)
    requires AllFormed(conns) && forall x :: x in conns ==> conns[x].iface != r.iface
    ensures Stored(r) !in Tracked(conns)
  {
    forall x | x in conns ensures Stored(r) !in StoredSet(conns[x].routes) {
      OwnRoutes(conns[x]);
    }
  }

  /** A new default route can only be in the table already if it is the host's, and nobody has taken over. */
  lemma HeldIsTheHosts(s: State, base: Table, families: seq<int>, stack: seq<string>, id: string, b: Bearer, i: nat)
    requires Inv(s, base, families, stack) && Fresh(s.conns, id, b) && OneLinkEach(b, families) && i < |families|
    ensures var r := RoutesFor(b, DEFAULT_METRIC)[i]; Holds(s.table, r) <==> stack == [] && Holds(base, r)
  {
    var r := RoutesFor(b, DEFAULT_METRIC)[i];
    assert r.family == families[i] && InFamilies(SlotOf(r), families);
    if stack != [] { HostBehind(base, families, s.conns[stack[0]].changes); }
    NobodyElses(s.conns, r);
  }

  /** Every connect keeps the invariant; it gives the modem its connection, or changes nothing. */
  lemma ConnectKeeps(s: State, base: Table, families: seq<int>, stack: seq<string>, id: string, b: Bearer,
                     asDefault: bool, u: State)
    returns (next: seq<string>)
    requires Inv(s, base, families, stack) && Fresh(s.conns, id, b) && (asDefault ==> OneLinkEach(b, families))
    requires Connects(s, id, b, asDefault, u)
    ensures Inv(u, base, families, next)
    ensures if b.links != [] && TakesEffect(s.conns, base, b, asDefault)
            then Gains(s.conns, id, b, asDefault, u.conns) else u == s
  {
    if b.links == [] {
      next := stack;
    } else if asDefault {
      next := DefaultConnect(s, base, families, stack, id, b, u);
    } else {
      SecondaryConnect(s, base, families, stack, id, b, u);
      next := stack;
    }
  }

  lemma SecondaryConnect(s: State, base: Table, families: seq<int>, stack: seq<string>, id: string, b: Bearer, u: State)
    requires Inv(s, base, families, stack) && Fresh(s.conns, id, b) && b.links != [] && Connects(s, id, b, false, u)
    ensures Inv(u, base, families, stack)
    ensures if OncePerFamily(b) then Gains(s.conns, id, b, false, u.conns) else u == s
  {
    var current, metric :| Lists(current, s.table) &&
      IsLeastFreeInAll(Slots(current), Families(RoutesFor(b, 0)), SECONDARY_METRIC, metric) &&
      u == ConnectedAsSecondary(s, id, b, metric);
    AlwaysInsertable(s.table, current, b, metric);
    if OncePerFamily(b) {
      SecondaryConnectKeeps(s, base, families, stack, id, b, metric);
      SecondaryGains(s, id, b, metric);
    }
  }

  lemma DefaultConnect(s: State, base: Table, families: seq<int>, stack: seq<string>, id: string, b: Bearer, u: State)
    returns (next: seq<string>)
    requires Inv(s, base, families, stack) && Fresh(s.conns, id, b) && OneLinkEach(b, families)
    requires Connects(s, id, b, true, u)
    ensures Inv(u, base, families, next)
    ensures if TakesEffect(s.conns, base, b, true) then Gains(s.conns, id, b, true, u.conns) else u == s
  {
    var current :| Lists(current, s.table) && u == ConnectedAsDefault(s, id, b, current);
    RefusedExactlyIfHeld(s.table, b, families, current);
    HeldOnlyFromHost(s, base, families, stack, id, b);
    next := stack;
    if TakesEffect(s.conns, base, b, true) {
      DefaultConnectKeeps(s, base, families, stack, id, b, current);
      DefaultGains(s, id, b, current);
      next := stack + [id];
    }
  }

  lemma DefaultGains(s: State, id: string, b: Bearer, current: seq<Route>)
    requires CanInsertAll(MovedAll(s.table, Changes(current, RoutesFor(b, DEFAULT_METRIC))),
      RoutesFor(b, DEFAULT_METRIC))
    ensures Gains(s.conns, id, b, true, ConnectedAsDefault(s, id, b, current).conns)
  {
    assert AllDemoted(s.conns, Changes(current, RoutesFor(b, DEFAULT_METRIC))).Keys == s.conns.Keys;
  }

  lemma SecondaryGains(s: State, id: string, b: Bearer, metric: nat)
    requires CanInsertAll(s.table, RoutesFor(b, metric))
    ensures Gains(s.conns, id, b, false, ConnectedAsSecondary(s, id, b, metric).conns)
  {
  }

  lemma HeldOnlyFromHost(s: State, base: Table, families: seq<int>, stack: seq<string>, id: string, b: Bearer)
    requires Inv(s, base, families, stack) && Fresh(s.conns, id, b) && OneLinkEach(b, families)
    ensures (forall i :: 0 <= i < |families| ==> !Holds(s.table, RoutesFor(b, DEFAULT_METRIC)[i])) <==>
            TakesEffect(s.conns, base, b, true)
  {
    DefaultIsTop(s, base, families, stack);
    forall i | 0 <= i < |families|
      ensures Holds(s.table, RoutesFor(b, DEFAULT_METRIC)[i]) <==>
        stack == [] && Holds(base, RoutesFor(b, DEFAULT_METRIC)[i])
    {
      HeldIsTheHosts(s, base, families, stack, id, b, i);
    }
  }
}
