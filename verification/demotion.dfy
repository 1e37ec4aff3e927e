/**
 Planning a takeover: which routes must step behind the preferred ones, and
 to which metric. The methods are the program's loops; the functions say what
 they compute, and the lemmas what the plan achieves.
 */
module Demotion {
  import opened Options
  import opened Routes
  import opened Undo

  // ----- the metric searches -----

  /** m is the least metric from start on whose slot is free in family. */
  ghost predicate IsLeastFree(used: set<Slot>, family: int, start: nat, m: nat) {
    && start <= m
    && Slot(family, m) !in used
    && forall k :: start <= k < m ==> Slot(family, k) in used
  }

  function LeastFree(used: set<Slot>, family: int, start: nat): (m: nat)
    ensures IsLeastFree(used, family, start, m)
    ensures m - start <= |used|
    decreases |used|
  {
    if Slot(family, start) in used then LeastFree(used - {Slot(family, start)}, family, start + 1) else start
  }

  lemma LeastFreeIsUnique(used: set<Slot>, family: int, start: nat, m: nat)
    requires IsLeastFree(used, family, start, m)
    ensures m == LeastFree(used, family, start)
  {
    var l := LeastFree(used, family, start);
    var atL, atM := Slot(family, l), Slot(family, m);
  }

  method RouteMetricExists(route: Route, metric: nat, routes: seq<Route>) returns (found: bool)
    ensures found <==> Slot(route.family, metric) in Slots(routes)
  {
    for i := 0 to |routes|
      invariant Slot(route.family, metric) !in Slots(routes[..i])
    {
      assert Slots(routes[..i + 1]) == Slots(routes[..i]) + {SlotOf(routes[i])};
      if routes[i].family == route.family && routes[i].metric == metric {
        assert SlotOf(routes[i]) == Slot(route.family, metric);
        return true;
      }
    }
    assert routes[..|routes|] == routes;
    return false;
  }

  /** Counts up from just above the default metric until the slot is free; at most one step per used slot. */
  method FallbackMetric(route: Route, used: seq<Route>) returns (metric: nat)
    ensures metric == LeastFree(Slots(used), route.family, DEFAULT_METRIC + route.metric + 1)
    ensures metric <= DEFAULT_METRIC + route.metric + 1 + |Slots(used)|
  {
    var start := DEFAULT_METRIC + route.metric + 1;
    metric := start;
    ghost var limit := LeastFree(Slots(used), route.family, start);
    var taken := RouteMetricExists(route, metric, used);
    while taken
      invariant start <= metric <= limit
      invariant taken <==> Slot(route.family, metric) in Slots(used)
      decreases limit - metric, taken
    {
      metric := metric + 1;
      taken := RouteMetricExists(route, metric, used);
    }
  }

  ghost predicate InUse(used: set<Slot>, families: set<int>, metric: nat) {
    exists f :: f in families && Slot(f, metric) in used
  }

  /** The least metric from start on that is free in every one of the families. */
  ghost predicate IsLeastFreeInAll(used: set<Slot>, families: set<int>, start: nat, m: nat) {
    && start <= m
    && !InUse(used, families, m)
    && forall k :: start <= k < m ==> InUse(used, families, k)
  }

  function Families(routes: seq<Route>): set<int> {
    set i | 0 <= i < |routes| :: routes[i].family
  }

  method RouteMetricInUse(routes: seq<Route>, current: seq<Route>, metric: nat) returns (used: bool)
    ensures used <==> InUse(Slots(current), Families(routes), metric)
  {
    for i := 0 to |routes|
      invariant forall k :: 0 <= k < i ==> Slot(routes[k].family, metric) !in Slots(current)
    {
      var found := RouteMetricExists(routes[i], metric, current);
      if found {
        assert routes[i].family in Families(routes);
        return true;
      }
    }
    return false;
  }

  method SecondaryRouteMetricFor(routes: seq<Route>, current: seq<Route>) returns (metric: nat)
    ensures IsLeastFreeInAll(Slots(current), Families(routes), SECONDARY_METRIC, metric)
    ensures metric <= SECONDARY_METRIC + |Slots(current)|
  {
    metric := SECONDARY_METRIC;
    ghost var left := Slots(current);
    var used := RouteMetricInUse(routes, current, metric);
    while used
      invariant SECONDARY_METRIC <= metric <= SECONDARY_METRIC + |Slots(current)| - |left|
      invariant used <==> InUse(Slots(current), Families(routes), metric)
      invariant forall k :: SECONDARY_METRIC <= k < metric ==> InUse(Slots(current), Families(routes), k)
      invariant left <= Slots(current)
      invariant forall s :: s in Slots(current) && s.metric >= metric ==> s in left
      decreases |left|, used
    {
      ghost var f :| f in Families(routes) && Slot(f, metric) in Slots(current);
      left := left - {Slot(f, metric)};
      metric := metric + 1;
      used := RouteMetricInUse(routes, current, metric);
    }
  }

  // ----- the plan -----

  /** m is the least metric among the first n routes that are of the family. */
  ghost predicate IsPreferredMetric(family: int, routes: seq<Route>, n: nat, m: Option<nat>)
    requires n <= |routes|
  {
    match m
    case None => forall i :: 0 <= i < n ==> routes[i].family != family
    case Some(v) =>
      && (exists i :: 0 <= i < n && SlotOf(routes[i]) == Slot(family, v))
      && forall i :: 0 <= i < n && routes[i].family == family ==> v <= routes[i].metric
  }

  method PreferredMetric(family: int, routes: seq<Route>) returns (m: Option<nat>)
    ensures IsPreferredMetric(family, routes, |routes|, m)
  {
    m := None;
    for i := 0 to |routes|
      invariant IsPreferredMetric(family, routes, i, m)
    {
      if routes[i].family == family && (m.None? || routes[i].metric < m.value) {
        m := Some(routes[i].metric);
        assert SlotOf(routes[i]) == Slot(family, m.value);
      }
    }
  }

  /** The route competes with the preferred ones: same family, metric not above theirs, not one of them. */
  predicate Competes(r: Route, preferred: seq<Route>) {
    && !Exists(r, preferred)
    && (exists i :: 0 <= i < |preferred| && preferred[i].family == r.family)
    && forall i :: 0 <= i < |preferred| && preferred[i].family == r.family ==> r.metric <= preferred[i].metric
  }

  function Replacement(r: Route, used: set<Slot>): Route {
    r.(metric := LeastFree(used, r.family, DEFAULT_METRIC + r.metric + 1))
  }

  function ChangesFrom(rest: seq<Route>, preferred: seq<Route>, used: set<Slot>): seq<Change> {
    if rest == [] then []
    else if Competes(rest[0], preferred) then
      var replacement := Replacement(rest[0], used);
      [Change(rest[0], replacement)] + ChangesFrom(rest[1..], preferred, used + {SlotOf(replacement)})
    else ChangesFrom(rest[1..], preferred, used)
  }

  function Changes(current: seq<Route>, preferred: seq<Route>): seq<Change> {
    ChangesFrom(current, preferred, Slots(current))
  }

  lemma CompetesByMetric(r: Route, preferred: seq<Route>, m: Option<nat>)
    requires IsPreferredMetric(r.family, preferred, |preferred|, m)
    ensures Competes(r, preferred) <==> !Exists(r, preferred) && m.Some? && r.metric <= m.value
  {
    if m.Some? {
      var i :| 0 <= i < |preferred| && SlotOf(preferred[i]) == Slot(r.family, m.value);
      assert preferred[i].family == r.family;
    }
  }

  lemma NextChange(changes: seq<Change>, current: seq<Route>, i: nat, preferred: seq<Route>, used: set<Slot>)
    requires i < |current|
    ensures changes + ChangesFrom(current[i..], preferred, used) ==
      if Competes(current[i], preferred) then
        var replacement := Replacement(current[i], used);
        (changes + [Change(current[i], replacement)]) +
          ChangesFrom(current[i + 1..], preferred, used + {SlotOf(replacement)})
      else changes + ChangesFrom(current[i + 1..], preferred, used)
  {
    assert current[i..][0] == current[i] && current[i..][1..] == current[i + 1..];
  }

  method DefaultRouteChanges(current: seq<Route>, preferred: seq<Route>) returns (changes: seq<Change>)
    ensures changes == Changes(current, preferred)
  {
    var used := current;
    changes := [];
    for i := 0 to |current|
      invariant changes + ChangesFrom(current[i..], preferred, Slots(used)) == Changes(current, preferred)
    {
      var route := current[i];
      NextChange(changes, current, i, preferred, Slots(used));
      var metric := PreferredMetric(route.family, preferred);
      CompetesByMetric(route, preferred, metric);
      if !Exists(route, preferred) && metric.Some? && route.metric <= metric.value {
        var fallback := FallbackMetric(route, used);
        var replacement := route.(metric := fallback);
        SlotsAppend(used, replacement);
        changes := changes + [Change(route, replacement)];
        used := used + [replacement];
      }
    }
  }

  lemma SlotsAppend(rs: seq<Route>, r: Route)
    ensures Slots(rs + [r]) == Slots(rs) + {SlotOf(r)}
  {
    assert forall i :: 0 <= i < |rs| ==> (rs + [r])[i] == rs[i];
    assert (rs + [r])[|rs|] == r;
    forall s | s in Slots(rs) ensures s in Slots(rs + [r]) {
      var i :| 0 <= i < |rs| && SlotOf(rs[i]) == s;
      assert SlotOf((rs + [r])[i]) == s;
    }
  }

  // ----- what the plan achieves -----

  /** Slots of the listed routes are pairwise distinct. */
  ghost predicate DistinctSlots(rs: seq<Route>) {
    forall i, j :: 0 <= i < j < |rs| ==> SlotOf(rs[i]) != SlotOf(rs[j])
  }

  ghost predicate Demotes(c: Change) {
    && c.original.metric + DEFAULT_METRIC < c.replacement.metric
    && c.replacement == c.original.(metric := c.replacement.metric)
  }

  /** Only competing routes are demoted, each to a slot nobody uses. */
  lemma {:induction false} PlanIsSound(rest: seq<Route>, preferred: seq<Route>, used: set<Slot>)
    requires DistinctSlots(rest)
    ensures var cs := ChangesFrom(rest, preferred, used);
      && Distinct(cs)
      && (forall i :: 0 <= i < |cs| ==> cs[i].original in rest && Competes(cs[i].original, preferred))
      && (forall i :: 0 <= i < |cs| ==> Demotes(cs[i]) && SlotOf(cs[i].replacement) !in used)
  {
    if rest != [] {
      var r, tail := rest[0], rest[1..];
      if Competes(r, preferred) {
        var replacement := Replacement(r, used);
        var rec := ChangesFrom(tail, preferred, used + {SlotOf(replacement)});
        PlanIsSound(tail, preferred, used + {SlotOf(replacement)});
        forall i | 0 <= i < |rec| ensures SlotOf(rec[i].original) != SlotOf(r) && rec[i].original in rest {
          assert rec[i].original in tail;
        }
      } else {
        PlanIsSound(tail, preferred, used);
      }
    }
  }

  lemma FirstReplacement(cs: seq<Change>)
    requires cs != []
    ensures Replacements(cs) == {SlotOf(cs[0].replacement)} + Replacements(cs[1..])
  {
    forall i | 1 <= i < |cs| ensures SlotOf(cs[i].replacement) in Replacements(cs[1..]) {
      assert cs[1..][i - 1] == cs[i];
    }
  }

  /** Each goes to the first free metric above its own plus 10, the metrics given out before not being free. */
  lemma {:induction false} DemotedToLeastFree(rest: seq<Route>, preferred: seq<Route>, used: set<Slot>, i: nat)
    requires i < |ChangesFrom(rest, preferred, used)|
    ensures var cs := ChangesFrom(rest, preferred, used); var r := cs[i].original;
      IsLeastFree(used + Replacements(cs[..i]), r.family, r.metric + 11, cs[i].replacement.metric)
  {
    var cs := ChangesFrom(rest, preferred, used);
    if Competes(rest[0], preferred) {
      if i > 0 {
        var first := {SlotOf(cs[0].replacement)};
        DemotedToLeastFree(rest[1..], preferred, used + first, i - 1);
        assert cs[1..][..i - 1] == cs[..i][1..];
        FirstReplacement(cs[..i]);
        assert used + first + Replacements(cs[..i][1..]) == used + Replacements(cs[..i]);
      }
    } else {
      DemotedToLeastFree(rest[1..], preferred, used, i);
    }
  }

  /** Every competing route is demoted. */
  lemma {:induction false} PlanIsComplete(rest: seq<Route>, preferred: seq<Route>, used: set<Slot>, r: Route)
    requires r in rest && Competes(r, preferred)
    ensures exists i ::
      0 <= i < |ChangesFrom(rest, preferred, used)| && ChangesFrom(rest, preferred, used)[i].original == r
  {
    var cs := ChangesFrom(rest, preferred, used);
    if rest[0] == r {
      assert cs[0].original == r;
    } else if Competes(rest[0], preferred) {
      var used' := used + {SlotOf(Replacement(rest[0], used))};
      PlanIsComplete(rest[1..], preferred, used', r);
      var i :| 0 <= i < |cs| - 1 && ChangesFrom(rest[1..], preferred, used')[i].original == r;
      assert cs[i + 1].original == r;
    } else {
      PlanIsComplete(rest[1..], preferred, used, r);
    }
  }

  lemma ListedSlots(current: seq<Route>, t: Table)
    requires Proper(t) && Lists(current, t)
    ensures DistinctSlots(current) && Slots(current) == t.Keys
    ensures forall r :: r in current <==> SlotOf(r) in t && t[SlotOf(r)] == r
  {
    forall s | s in t ensures s in Slots(current) {
      var i :| 0 <= i < |current| && current[i] == t[s];
    }
  }

  /** The plan for a dump of the table can be carried out on the table, and demotes exactly the competing routes. */
  lemma ChangesArePlanned(t: Table, current: seq<Route>, preferred: seq<Route>)
    requires Proper(t) && Lists(current, t)
    ensures var cs := Changes(current, preferred);
      && Planned(t, cs)
      && (forall i :: 0 <= i < |cs| ==>
            Demotes(cs[i]) && Competes(cs[i].original, preferred) && cs[i].original.protocol != 0)
      && (forall s :: s in t ==> (Competes(t[s], preferred) <==> s in Originals(cs)))
  {
    var cs := Changes(current, preferred);
    ListedSlots(current, t);
    PlanIsSound(current, preferred, Slots(current));
    forall i | 0 <= i < |cs| ensures Holds(t, cs[i].original) {
      assert cs[i].original in current;
    }
    forall s | s in t ensures Competes(t[s], preferred) <==> s in Originals(cs) {
      if Competes(t[s], preferred) {
        PlanIsComplete(current, preferred, Slots(current), t[s]);
        var i :| 0 <= i < |cs| && cs[i].original == t[s];
      }
    }
  }

  /** After a takeover nothing competes with the preferred routes any more, and no route is lost. */
  lemma TakeoverSettles(t: Table, current: seq<Route>, preferred: seq<Route>)
    requires Proper(t) && Lists(current, t)
    requires forall i :: 0 <= i < |preferred| ==> preferred[i].metric <= DEFAULT_METRIC
    ensures var u := MovedAll(t, Changes(current, preferred));
      && (forall s :: s in u ==> !Competes(u[s], preferred))
      && |u| == |t|
  {
    var cs := Changes(current, preferred);
    var u := MovedAll(t, cs);
    ChangesArePlanned(t, current, preferred);
    MovedAllSlots(t, cs);
    SameSize(t, cs);
    forall s | s in u ensures !Competes(u[s], preferred) {
      if s in Replacements(cs) {
        var i :| 0 <= i < |cs| && u[s] == Stored(cs[i].replacement);
        assert Demotes(cs[i]);
        BehindDefault(u[s], preferred);
      } else {
        assert s in t && u[s] == t[s];
      }
    }
  }

  lemma BehindDefault(r: Route, preferred: seq<Route>)
    requires forall i :: 0 <= i < |preferred| ==> preferred[i].metric <= DEFAULT_METRIC
    requires r.metric > DEFAULT_METRIC
    ensures !Competes(r, preferred)
  {
  }

  /** A second takeover, over a dump of the result with the preferred routes in it, changes nothing. */
  lemma TakeoverIsIdempotent(t: Table, current: seq<Route>, preferred: seq<Route>, after: seq<Route>)
    requires Proper(t) && Lists(current, t)
    requires forall i :: 0 <= i < |preferred| ==> preferred[i].metric <= DEFAULT_METRIC
    requires var u := MovedAll(t, Changes(current, preferred));
      CanInsertAll(u, preferred) && Lists(after, InsertedAll(u, preferred))
    ensures Changes(after, preferred) == []
  {
    var u := MovedAll(t, Changes(current, preferred));
    TakeoverSettles(t, current, preferred);
    InsertedAllHolds(u, preferred);
    forall r | r in after ensures !Competes(r, preferred) {
      if SlotOf(r) !in u {
        var i :| 0 <= i < |preferred| && SlotOf(preferred[i]) == SlotOf(r);
        assert Holds(InsertedAll(u, preferred), preferred[i]);
        PreferredDoesNotCompete(r, preferred, i);
      }
    }
    NothingToDo(after, preferred, Slots(after));
  }

  lemma PreferredDoesNotCompete(r: Route, preferred: seq<Route>, i: nat)
    requires i < |preferred| && r == Stored(preferred[i])
    ensures !Competes(r, preferred)
  {
    assert Same(r, preferred[i]);
  }

  lemma {:induction false} NothingToDo(rest: seq<Route>, preferred: seq<Route>, used: set<Slot>)
    requires forall r :: r in rest ==> !Competes(r, preferred)
    ensures ChangesFrom(rest, preferred, used) == []
  {
    if rest != [] {
      NothingToDo(rest[1..], preferred, used);
    }
  }

  /** Moving loses no route. */
  lemma {:induction false} SameSize(t: Table, cs: seq<Change>)
    requires Planned(t, cs)
    ensures |MovedAll(t, cs)| == |t|
    decreases |cs|
  {
    if cs != [] {
      var n := |cs| - 1;
      SameSize(t, cs[..n]);
      MovedAllSlots(t, cs[..n]);
      LastIsFresh(cs);
      var u := MovedAll(t, cs[..n]);
      MovedSlots(u, cs[n]);
      var v := u - {SlotOf(cs[n].original)};
      assert v.Keys == u.Keys - {SlotOf(cs[n].original)};
      assert Moved(u, cs[n]).Keys == v.Keys + {SlotOf(cs[n].replacement)};
      assert |v| == |v.Keys| && |Moved(u, cs[n])| == |Moved(u, cs[n]).Keys| && |u| == |u.Keys|;
    }
  }

  /** With the dump in ascending metric order, demoted routes of one family keep their order. */
  lemma {:induction false} OrderIsKept(rest: seq<Route>, preferred: seq<Route>, used: set<Slot>)
    requires forall i, j :: 0 <= i < j < |rest| && rest[i].family == rest[j].family ==> rest[i].metric < rest[j].metric
    ensures var cs := ChangesFrom(rest, preferred, used);
      forall i, j :: 0 <= i < j < |cs| && cs[i].original.family == cs[j].original.family ==>
        && cs[i].original.metric < cs[j].original.metric
        && cs[i].replacement.metric < cs[j].replacement.metric
  {
    if rest != [] {
      var r, tail := rest[0], rest[1..];
      if Competes(r, preferred) {
        var replacement := Replacement(r, used);
        var used' := used + {SlotOf(replacement)};
        var rec := ChangesFrom(tail, preferred, used');
        OrderIsKept(tail, preferred, used');
        assert DistinctSlots(tail);
        PlanIsSound(tail, preferred, used');
        forall j | 0 <= j < |rec| && rec[j].original.family == r.family
          ensures r.metric < rec[j].original.metric && replacement.metric < rec[j].replacement.metric
        {
          assert rec[j].original in tail;
          assert Demotes(rec[j]) && SlotOf(rec[j].replacement) == Slot(r.family, rec[j].replacement.metric);
        }
      } else {
        OrderIsKept(tail, preferred, used);
        assert ChangesFrom(rest, preferred, used) == ChangesFrom(tail, preferred, used);
      }
    }
  }
}
