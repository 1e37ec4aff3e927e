/**
 Whole runs: any sequence of connects and disconnects, of default-route and
 secondary connections, in any order, with no call failing and nobody else
 editing the table.
 */
module Runs {
  import opened Routes
  import opened Undo
  import opened Connections
  import opened Tracking
  import opened Connecting

  datatype Action = Connect(id: string, bearer: Bearer, asDefault: bool) | Disconnect(id: string)

  /** Connecting first drops the modem's previous connection. */
  ghost predicate Step(s: State, a: Action, u: State) {
    match a
    case Disconnect(id) => Disconnects(s, id, u)
    case Connect(id, b, asDefault) => exists mid :: Disconnects(s, id, mid) && Connects(mid, id, b, asDefault, u)
  }

  /** Every default-route bearer has the same families, and no two modems share an interface. */
  ghost predicate Admissible(s: State, a: Action, families: seq<int>) {
    a.Connect? ==>
      && (a.asDefault ==> OneLinkEach(a.bearer, families))
      && forall x :: x in s.conns && x != a.id ==> s.conns[x].iface != a.bearer.iface
  }

  lemma IfacesKept(s: State, id: string, u: State)
    requires Disconnects(s, id, u)
    ensures u.conns.Keys == s.conns.Keys - {id}
    ensures forall x :: x in u.conns ==> u.conns[x].iface == s.conns[x].iface
  {
  }

  lemma StepKeeps(s: State, base: Table, families: seq<int>, stack: seq<string>, a: Action, u: State)
    returns (next: seq<string>)
    requires Inv(s, base, families, stack) && Admissible(s, a, families) && Step(s, a, u)
    ensures Inv(u, base, families, next)
  {
    match a
    case Disconnect(id) =>
      next := DisconnectKeeps(s, base, families, stack, id, u);
    case Connect(id, b, asDefault) =>
      var mid :| Disconnects(s, id, mid) && Connects(mid, id, b, asDefault, u);
      next := DisconnectKeeps(s, base, families, stack, id, mid);
      IfacesKept(s, id, mid);
      next := ConnectKeeps(mid, base, families, next, id, b, asDefault, u);
  }

  lemma StepConnects(s: State, base: Table, families: seq<int>, stack: seq<string>, a: Action, u: State)
    returns (mid: State)
    requires Inv(s, base, families, stack) && Admissible(s, a, families) && Step(s, a, u) && a.Connect?
    ensures Disconnects(s, a.id, mid) && Connected(mid, base, a, u)
  {
    mid :| Disconnects(s, a.id, mid) && Connects(mid, a.id, a.bearer, a.asDefault, u);
    var next := DisconnectKeeps(s, base, families, stack, a.id, mid);
    IfacesKept(s, a.id, mid);
    next := ConnectKeeps(mid, base, families, next, a.id, a.bearer, a.asDefault, u);
  }

  ghost predicate IsRun(states: seq<State>, actions: seq<Action>, families: seq<int>, base: Table) {
    && |states| == |actions| + 1
    && states[0] == State(base, map[], map[])
    && forall k :: 0 <= k < |actions| ==>
      Admissible(states[k], actions[k], families) && Step(states[k], actions[k], states[k + 1])
  }

  lemma {:induction false} RunKeeps(states: seq<State>, actions: seq<Action>, families: seq<int>, base: Table, k: nat)
    returns (stack: seq<string>)
    requires Proper(base) && GoodFamilies(families) && IsRun(states, actions, families, base) && k < |states|
    ensures Inv(states[k], base, families, stack)
  {
    if k == 0 {
      stack := [];
    } else {
      stack := RunKeeps(states, actions, families, base, k - 1);
      stack := StepKeeps(states[k - 1], base, families, stack, actions[k - 1], states[k]);
    }
  }

  /** The modem, not tracked in s, gets its connection, or nothing happens at all. */
  ghost predicate Connected(s: State, base: Table, a: Action, u: State)
    requires a.Connect?
  {
    if a.bearer.links != [] && TakesEffect(s.conns, base, a.bearer, a.asDefault)
    then Gains(s.conns, a.id, a.bearer, a.asDefault, u.conns)
    else u == s
  }

  /**
   In a run, with the modem's previous connection gone, a default connect is
   refused exactly if no other connection is the default and the host itself
   has one of the new routes, a secondary connect only for two links of one
   family.
   */
  lemma ConnectTakesEffect(states: seq<State>, actions: seq<Action>, families: seq<int>, base: Table, k: nat)
    returns (mid: State)
    requires Proper(base) && GoodFamilies(families) && IsRun(states, actions, families, base)
    requires k < |actions| && actions[k].Connect?
    ensures Disconnects(states[k], actions[k].id, mid) && Connected(mid, base, actions[k], states[k + 1])
  {
    var stack := RunKeeps(states, actions, families, base, k);
    mid := StepConnects(states[k], base, families, stack, actions[k], states[k + 1]);
  }

  /** Whenever no connection is left, the host has its table back and the journal is empty. */
  lemma HostGetsItsTableBack(states: seq<State>, actions: seq<Action>, families: seq<int>, base: Table, k: nat)
    requires Proper(base) && GoodFamilies(families) && IsRun(states, actions, families, base) && k < |states|
    requires states[k].conns == map[]
    ensures states[k].table == base && states[k].journal == map[]
  {
    var s := states[k];
    var stack := RunKeeps(states, actions, families, base, k);
    assert forall id :: id in stack ==> id in s.conns;
    assert forall name :: name in s.journal ==> Names(s.conns, name);
    assert s.table.Keys == base.Keys;
  }

  /** The connection's recorded routes are in the table, and no other route of the table is on its interface. */
  ghost predicate Exact(t: Table, c: Conn) {
    && (forall r :: r in StoredSet(c.routes) ==> SlotOf(r) in t && t[SlotOf(r)] == r)
    && (forall s :: s in t && t[s].iface == c.iface ==> t[s] in StoredSet(c.routes))
  }

  /** c's metric is below that of every route of the families that is not its own. */
  ghost predicate Leads(t: Table, c: Conn, families: seq<int>) {
    forall s :: s in t && s.family in families && t[s] !in StoredSet(c.routes) ==> c.metric < s.metric
  }

  /**
   After every action: the flag says whether the metric is the default one, at
   most one connection has it, it leads the table, and recorded routes are
   exact on interfaces the host did not use.
   */
  lemma ConnectionsMatchTable(states: seq<State>, actions: seq<Action>, families: seq<int>, base: Table, k: nat)
    requires Proper(base) && GoodFamilies(families) && IsRun(states, actions, families, base) && k < |states|
    ensures var s := states[k];
      && (forall id :: id in s.conns ==> (s.conns[id].isDefault <==> s.conns[id].metric <= DEFAULT_METRIC))
      && (forall a, b :: a in s.conns && b in s.conns && s.conns[a].isDefault && s.conns[b].isDefault ==> a == b)
      && (forall id :: id in s.conns && s.conns[id].isDefault ==> Leads(s.table, s.conns[id], families))
      && (forall id :: id in s.conns && (forall r :: r in base ==> base[r].iface != s.conns[id].iface) ==>
            Exact(s.table, s.conns[id]))
  {
    var s := states[k];
    var stack := RunKeeps(states, actions, families, base, k);
    forall id | id in s.conns
      ensures (s.conns[id].isDefault <==> s.conns[id].metric <= DEFAULT_METRIC)
        && (s.conns[id].isDefault ==> IsTop(stack, id) && Leads(s.table, s.conns[id], families))
        && ((forall r :: r in base ==> base[r].iface != s.conns[id].iface) ==> Exact(s.table, s.conns[id]))
    {
      FlagOf(s.conns[id]);
      if IsTop(stack, id) {
        TopLeads(s, base, families, stack, id);
      }
      if forall r :: r in base ==> base[r].iface != s.conns[id].iface {
        RoutesAreExact(s, base, families, stack, id);
      }
    }
  }

  lemma TopLeads(s: State, base: Table, families: seq<int>, stack: seq<string>, id: string)
    requires Inv(s, base, families, stack) && id in s.conns && IsTop(stack, id)
    ensures Leads(s.table, s.conns[id], families)
  {
    FlagOf(s.conns[id]);
    HostBehind(base, families, s.conns[stack[0]].changes);
    FormedApart(s.conns, id);
    TrackedWithout(s.conns, id);
    BehindTracked(s.conns - {id}, families);
  }

  lemma HostIfaces(base: Table, families: seq<int>, cs: seq<Change>, iface: string)
    requires Displaced(base, families, cs) && forall s :: s in base ==> base[s].iface != iface
    ensures forall s :: s in MovedAll(base, cs) ==> MovedAll(base, cs)[s].iface != iface
  {
    MovedRoutes(base, cs);
    forall r | r in ReplacementSet(cs) ensures r.iface != iface {
      var i :| 0 <= i < |cs| && r == Stored(cs[i].replacement);
      assert Holds(base, cs[i].original);
    }
  }

  lemma RoutesAreExact(s: State, base: Table, families: seq<int>, stack: seq<string>, id: string)
    requires Inv(s, base, families, stack) && id in s.conns
    requires forall r :: r in base ==> base[r].iface != s.conns[id].iface
    ensures Exact(s.table, s.conns[id])
  {
    var c := s.conns[id];
    FormedApart(s.conns, id);
    TrackedWithout(s.conns, id);
    if stack != [] {
      HostIfaces(base, families, s.conns[stack[0]].changes, c.iface);
    }
    forall slot | slot in s.table && s.table[slot].iface == c.iface ensures s.table[slot] in StoredSet(c.routes) {
      assert s.table[slot] in Tracked(s.conns);
      var x :| x in s.conns && s.table[slot] in StoredSet(s.conns[x].routes);
      OwnRoutes(s.conns[x]);
    }
  }
}
