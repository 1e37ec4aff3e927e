/**
 Default routes and the kernel's routing table, as the program sees them:
 one route per (family, metric) slot, adding to an occupied slot is refused,
 deleting a route that is not there does nothing.
 */
module Routes {

  type byte = x: int | 0 <= x < 256

  datatype Addr = NoAddr | V4(raw: seq<byte>) | V6(raw: seq<byte>)

  datatype Route = Route(iface: string, family: int, protocol: nat, scope: nat,
                         gateway: Addr, source: Addr, metric: nat)

  datatype Slot = Slot(family: int, metric: nat)

  const STATIC_PROTOCOL := 4
  const DEFAULT_METRIC := 10
  const SECONDARY_METRIC := 9000

  function SlotOf(r: Route): Slot {
    Slot(r.family, r.metric)
  }

  function ProtocolOf(r: Route): nat {
    if r.protocol != 0 then r.protocol else STATIC_PROTOCOL
  }

  /** The route as the kernel reports it back: an unset protocol reads as static. */
  function Stored(r: Route): (s: Route)
    ensures s.protocol != 0 && SlotOf(s) == SlotOf(r) && s.iface == r.iface
  {
    r.(protocol := ProtocolOf(r))
  }

  predicate Same(a: Route, b: Route)
    ensures Same(a, b) <==> Stored(a) == Stored(b)
  {
    && a.iface == b.iface
    && a.family == b.family
    && ProtocolOf(a) == ProtocolOf(b)
    && a.scope == b.scope
    && a.gateway == b.gateway
    && a.source == b.source
    && a.metric == b.metric
  }

  predicate Exists(r: Route, routes: seq<Route>) {
    exists i :: 0 <= i < |routes| && Same(r, routes[i])
  }

  type Table = map<Slot, Route>

  /** Every route sits in its own slot, in the form the kernel reports. */
  ghost predicate Proper(t: Table) {
    forall s :: s in t ==> SlotOf(t[s]) == s && t[s].protocol != 0
  }

  predicate Holds(t: Table, r: Route) {
    SlotOf(r) in t && t[SlotOf(r)] == Stored(r)
  }

  function Inserted(t: Table, r: Route): Table
    requires SlotOf(r) !in t
  {
    t[SlotOf(r) := Stored(r)]
  }

  function Removed(t: Table, r: Route): Table {
    if Holds(t, r) then t - {SlotOf(r)} else t
  }

  function RemovedAll(t: Table, rs: seq<Route>): Table
    decreases |rs|
  {
    if rs == [] then t else RemovedAll(Removed(t, rs[|rs| - 1]), rs[..|rs| - 1])
  }

  function StoredSet(rs: seq<Route>): set<Route> {
    set i | 0 <= i < |rs| :: Stored(rs[i])
  }

  lemma {:induction false} RemovedAllSlots(t: Table, rs: seq<Route>)
    requires Proper(t)
    ensures Proper(RemovedAll(t, rs))
    ensures forall s :: s in RemovedAll(t, rs) <==> s in t && t[s] !in StoredSet(rs)
    ensures forall s :: s in RemovedAll(t, rs) ==> RemovedAll(t, rs)[s] == t[s]
    decreases |rs|
  {
    if rs != [] {
      var n := |rs| - 1;
      RemovedAllSlots(Removed(t, rs[n]), rs[..n]);
      assert StoredSet(rs) == StoredSet(rs[..n]) + {Stored(rs[n])};
    }
  }

  function Slots(rs: seq<Route>): set<Slot> {
    set i | 0 <= i < |rs| :: SlotOf(rs[i])
  }

  predicate CanInsertAll(t: Table, rs: seq<Route>) {
    && (forall i :: 0 <= i < |rs| ==> SlotOf(rs[i]) !in t)
    && forall i, j :: 0 <= i < j < |rs| ==> SlotOf(rs[i]) != SlotOf(rs[j])
  }

  function InsertedAll(t: Table, rs: seq<Route>): (u: Table)
    requires CanInsertAll(t, rs)
    ensures u.Keys == t.Keys + Slots(rs)
    decreases |rs|
  {
    if rs == [] then t else
      var n := |rs| - 1;
      assert Slots(rs) == Slots(rs[..n]) + {SlotOf(rs[n])};
      assert SlotOf(rs[n]) !in Slots(rs[..n]);
      Inserted(InsertedAll(t, rs[..n]), rs[n])
  }

  lemma {:induction false} InsertedAllHolds(t: Table, rs: seq<Route>)
    requires CanInsertAll(t, rs)
    ensures forall s :: s in t ==> InsertedAll(t, rs)[s] == t[s]
    ensures forall i :: 0 <= i < |rs| ==> Holds(InsertedAll(t, rs), rs[i])
    decreases |rs|
  {
    if rs != [] {
      var front, last := rs[..|rs| - 1], rs[|rs| - 1];
      LastFits(t, rs);
      InsertedAllHolds(t, front);
      LastInserted(InsertedAll(t, front), front, last);
      FrontAndLast(InsertedAll(t, rs), rs, front);
    }
  }

  lemma LastFits(t: Table, rs: seq<Route>)
    requires rs != [] && CanInsertAll(t, rs)
    ensures var front, last := rs[..|rs| - 1], rs[|rs| - 1];
      && CanInsertAll(t, front) && SlotOf(last) !in InsertedAll(t, front)
      && InsertedAll(t, rs) == Inserted(InsertedAll(t, front), last)
  {
  }

  /** One more route leaves the others in place. */
  lemma LastInserted(u: Table, front: seq<Route>, last: Route)
    requires SlotOf(last) !in u && forall i :: 0 <= i < |front| ==> Holds(u, front[i])
    ensures Holds(Inserted(u, last), last) && forall i :: 0 <= i < |front| ==> Holds(Inserted(u, last), front[i])
  {
  }

  lemma FrontAndLast(u: Table, rs: seq<Route>, front: seq<Route>)
    requires rs != [] && front == rs[..|rs| - 1] && Holds(u, rs[|rs| - 1])
    requires forall i :: 0 <= i < |front| ==> Holds(u, front[i])
    ensures forall i :: 0 <= i < |rs| ==> Holds(u, rs[i])
  {
    forall i | 0 <= i < |rs| ensures Holds(u, rs[i]) {
      if i < |front| { assert rs[i] == front[i]; }
    }
  }

  /** A route dump: every route of the table once, in any order. */
  predicate Lists(current: seq<Route>, t: Table) {
    && (forall i :: 0 <= i < |current| ==> SlotOf(current[i]) in t && t[SlotOf(current[i])] == current[i])
    && (forall s :: s in t ==> t[s] in current)
    && forall i, j :: 0 <= i < j < |current| ==> current[i] != current[j]
  }

  lemma ListingExists(t: Table) returns (current: seq<Route>)
    requires Proper(t)
    ensures Lists(current, t)
  {
    current := [];
    var left := t.Keys;
    while left != {}
      invariant left <= t.Keys
      invariant forall i :: 0 <= i < |current| ==>
        SlotOf(current[i]) in t.Keys - left && t[SlotOf(current[i])] == current[i]
      invariant forall s :: s in t.Keys - left ==> t[s] in current
      invariant forall i, j :: 0 <= i < j < |current| ==> current[i] != current[j]
    {
      var s :| s in left;
      left := left - {s};
      current := current + [t[s]];
    }
  }
}
