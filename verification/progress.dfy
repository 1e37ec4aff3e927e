/** No run gets stuck: the steps that the run theorems assume exist for every admissible action. */
module Progress {
  import opened Routes
  import opened Undo
  import opened Demotion
  import opened Connections
  import opened Tracking
  import opened Runs

  lemma {:induction false} MetricExists(used: set<Slot>, families: set<int>, start: nat) returns (m: nat)
    ensures IsLeastFreeInAll(used, families, start, m)
    decreases |used|
  {
    if f :| f in families && Slot(f, start) in used {
      var fewer := used - {Slot(f, start)};
      m := MetricExists(fewer, families, start + 1);
      forall k | start < k ensures InUse(fewer, families, k) <==> InUse(used, families, k) {
        assert forall g :: Slot(g, k) in fewer <==> Slot(g, k) in used;
      }
    } else {
      m := start;
    }
  }

  lemma ConnectExists(s: State, id: string, b: Bearer, asDefault: bool) returns (u: State)
    requires Proper(s.table)
    ensures Connects(s, id, b, asDefault, u)
  {
    var current := ListingExists(s.table);
    if b.links == [] {
      u := s;
    } else if asDefault {
      u := ConnectedAsDefault(s, id, b, current);
    } else {
      var metric := MetricExists(Slots(current), Families(RoutesFor(b, 0)), SECONDARY_METRIC);
      u := ConnectedAsSecondary(s, id, b, metric);
    }
  }

  ghost predicate OneHeir(conns: map<string, Conn>, removed: Conn) {
    forall x, y :: Rewrites(conns, x, removed) && Rewrites(conns, y, removed) ==> x == y
  }

  lemma NextIsOne(stack: seq<string>, id: string, x: string, y: string)
    requires NoRepeats(stack) && IsHeir(stack, id, x) && IsHeir(stack, id, y)
    ensures x == y
  {
  }

  lemma AtMostOneHeir(s: State, base: Table, families: seq<int>, stack: seq<string>, id: string)
    requires Inv(s, base, families, stack) && id in s.conns
    ensures OneHeir(s.conns, s.conns[id])
  {
    forall x, y | Rewrites(s.conns, x, s.conns[id]) && Rewrites(s.conns, y, s.conns[id]) ensures x == y {
      OnlyHeirInherits(s, base, families, stack, id, x);
      OnlyHeirInherits(s, base, families, stack, id, y);
      NextIsOne(stack, id, x, y);
    }
  }

  lemma OneRewritten(s: State, removed: Conn, heir: string, journal: map<string, Entry>)
    requires !removed.isDefault && Rewrites(s.conns, heir, removed)
    requires forall x :: Rewrites(s.conns, x, removed) ==> x == heir
    requires var kept, c := s.journal - {removed.iface}, HeirOf(s.conns[heir], removed);
      journal == if c.changes == [] then kept - {c.iface} else kept[c.iface := Entry(heir, c.routes, c.changes)]
    ensures JournalWithout(s, removed, journal)
  {
    assert HeirOf(s.conns[heir], removed).iface == s.conns[heir].iface;
  }

  /** The one entry to rewrite is the heir's. */
  lemma JournalExists(s: State, removed: Conn) returns (journal: map<string, Entry>)
    requires !removed.isDefault && OneHeir(s.conns, removed)
    ensures JournalWithout(s, removed, journal)
  {
    journal := s.journal - {removed.iface};
    if heir :| Rewrites(s.conns, heir, removed) {
      var c := HeirOf(s.conns[heir], removed);
      journal := if c.changes == [] then journal - {c.iface} else journal[c.iface := Entry(heir, c.routes, c.changes)];
      OneRewritten(s, removed, heir, journal);
    }
  }

  lemma RemovalExists(s: State, id: string) returns (u: State)
    requires id in s.conns ==> s.conns[id].isDefault || OneHeir(s.conns, s.conns[id])
    ensures Disconnects(s, id, u)
  {
    u := s;
    if id in s.conns {
      var c := s.conns[id];
      var journal := s.journal - {c.iface};
      if !c.isDefault { journal := JournalExists(s, c); }
      u := State(TableWithout(s.table, c), journal, ConnsWithout(s.conns, c) - {id});
    }
  }

  lemma DisconnectExists(s: State, base: Table, families: seq<int>, stack: seq<string>, id: string) returns (u: State)
    requires Inv(s, base, families, stack)
    ensures Disconnects(s, id, u)
  {
    if id in s.conns { AtMostOneHeir(s, base, families, stack, id); }
    u := RemovalExists(s, id);
  }

  lemma StepExists(s: State, base: Table, families: seq<int>, stack: seq<string>, a: Action) returns (u: State)
    requires Inv(s, base, families, stack)
    ensures Step(s, a, u)
  {
    u := DisconnectExists(s, base, families, stack, a.id);
    if a.Connect? {
      var mid := u;
      var next := DisconnectKeeps(s, base, families, stack, a.id, mid);
      u := ConnectExists(mid, a.id, a.bearer, a.asDefault);
    }
  }

  /** Every run goes on with any admissible action. */
  lemma RunGoesOn(states: seq<State>, actions: seq<Action>, families: seq<int>, base: Table, a: Action)
    returns (u: State)
    requires Proper(base) && GoodFamilies(families) && IsRun(states, actions, families, base)
    requires Admissible(states[|actions|], a, families)
    ensures IsRun(states + [u], actions + [a], families, base)
  {
    var stack := RunKeeps(states, actions, families, base, |actions|);
    u := StepExists(states[|actions|], base, families, stack, a);
    OneStepMore(states, actions, families, base, a, u);
  }

  lemma OneStepMore(states: seq<State>, actions: seq<Action>, families: seq<int>, base: Table, a: Action, u: State)
    requires IsRun(states, actions, families, base)
    requires Admissible(states[|actions|], a, families) && Step(states[|actions|], a, u)
    ensures IsRun(states + [u], actions + [a], families, base)
  {
    var longer, more := states + [u], actions + [a];
    forall k | 0 <= k < |more|
      ensures Admissible(longer[k], more[k], families) && Step(longer[k], more[k], longer[k + 1])
    {
      if k < |actions| {
        assert longer[k] == states[k] && longer[k + 1] == states[k + 1] && more[k] == actions[k];
      }
    }
  }
}
