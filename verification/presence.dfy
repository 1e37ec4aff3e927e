/**
 The presence runner: one task for each modem that is there, started and
 cancelled as modems come and go. The maps change inside one lock; contexts
 that were replaced or removed are cancelled, and new tasks launched, after it
 is released, so other calls may come in between.
 */
module Presence {
  import opened Options

  type Path = string

  /** Equipment is "" for a modem without an identifier. */
  datatype Task = Task(path: Path, equipment: string)

  /**
   pending holds contexts taken out of the maps whose cancel has not been
   called yet. adders are the calls that have registered a task and left the
   lock: each cancels what it was handed, one context after the other, and then
   launches the task. down says that the context above all others is cancelled.
   */
  datatype State = State(stopped: bool,
                         cancels: map<Path, nat>, equipment: map<string, Path>, modems: map<Path, string>,
                         tasks: map<nat, Task>, adders: map<nat, seq<nat>>,
                         cancelled: set<nat>, pending: set<nat>, launched: set<nat>, down: bool)

  const EMPTY := State(false, map[], map[], map[], map[], map[], {}, {}, {}, false)

  function Without<K, V>(m: map<K, V>, k: K): map<K, V> {
    m - {k}
  }

  /** path is no longer registered. */
  function Unregistered(s: State, path: Path): State {
    if path !in s.cancels then s
    else
      s.(cancels := Without(s.cancels, path),
         equipment := if path in s.modems then Without(s.equipment, s.modems[path]) else s.equipment,
         modems := Without(s.modems, path),
         pending := s.pending + {s.cancels[path]})
  }

  function Registered(s: State, id: nat, path: Path, equipment: string, oldCancels: seq<nat>): State {
    s.(cancels := s.cancels[path := id],
       equipment := if equipment != "" then s.equipment[equipment := path] else s.equipment,
       modems := if equipment != "" then s.modems[path := equipment] else s.modems,
       tasks := s.tasks[id := Task(path, equipment)],
       adders := s.adders[id := oldCancels])
  }

  /** The modem's earlier tasks, on this path or another, make way. */
  function Added(s: State, id: nat, path: Path, equipment: string): State {
    if s.stopped then s else
      var t := Unregistered(s, path);
      var u := if equipment in t.equipment then Unregistered(t, t.equipment[equipment]) else t;
      Registered(u, id, path, equipment, Displaced(s, path, equipment))
  }

  function ContextAt(s: State, path: Path): seq<nat> {
    if path in s.cancels then [s.cancels[path]] else []
  }

  /** The contexts registered for the path, and for the equipment on another one. */
  function Displaced(s: State, path: Path, equipment: string): seq<nat> {
    var t := Unregistered(s, path);
    ContextAt(s, path) + if equipment in t.equipment then ContextAt(t, t.equipment[equipment]) else []
  }

  function Stopped(s: State): State {
    s.(stopped := true, cancels := map[], equipment := map[], modems := map[], pending := s.pending + s.cancels.Values)
  }

  function Cancelled(s: State, id: nat): State {
    s.(cancelled := s.cancelled + {id}, pending := s.pending - {id})
  }

  /** The adder's next step: the next context is cancelled, or, none being left, the task launched. */
  function Stepped(s: State, id: nat): State
    requires id in s.adders
  {
    var left := s.adders[id];
    if left == [] then s.(adders := s.adders - {id}, launched := s.launched + {id})
    else Cancelled(s, left[0]).(adders := s.adders[id := left[1..]])
  }

  // ----- the runner as it runs -----

  class Runner {
    var stopped: bool
    var cancels: map<Path, nat>
    var equipment: map<string, Path>
    var modems: map<Path, string>
    var tasks: map<nat, Task>
    var cancelled: set<nat>
    var launched: set<nat>
    var adders: map<nat, seq<nat>>
    var down: bool
    ghost var pending: set<nat>

    ghost function Now(): State
      reads this
    {
      State(stopped, cancels, equipment, modems, tasks, adders, cancelled, pending, launched, down)
    }

    constructor ()
      ensures Now() == EMPTY
    {
      stopped, cancels, equipment, modems, tasks := false, map[], map[], map[], map[];
      adders, cancelled, pending, launched, down := map[], {}, {}, {}, false;
    }

    /** Inside the lock: registers a task, and hands out the contexts to cancel. */
    method AddLocked(id: nat, path: Path, equipmentID: string) returns (oldCancels: seq<nat>)
      requires Consistent(Now())
      modifies this
      ensures Now() == Added(old(Now()), id, path, equipmentID)
      ensures oldCancels == if old(stopped) then [] else Displaced(old(Now()), path, equipmentID)
    {
      oldCancels := [];
      if stopped {
        return;
      }
      ghost var s := Now();
      UnregisteredIsConsistent(s, path);
      oldCancels := DropPath(path);
      if equipmentID != "" && equipmentID in equipment && equipment[equipmentID] != path {
        var more := DropEquipment(equipmentID);
        oldCancels := oldCancels + more;
      }
      assert oldCancels + [] == oldCancels;
      assert oldCancels == Displaced(s, path, equipmentID);
      Register(id, path, equipmentID, oldCancels);
    }

    method Register(id: nat, path: Path, equipmentID: string, oldCancels: seq<nat>)
      modifies this
      ensures Now() == Registered(old(Now()), id, path, equipmentID, oldCancels)
    {
      cancels := cancels[path := id];
      if equipmentID != "" {
        equipment := equipment[equipmentID := path];
        modems := modems[path := equipmentID];
      }
      tasks := tasks[id := Task(path, equipmentID)];
      adders := adders[id := oldCancels];
    }

    method DropPath(path: Path) returns (oldCancels: seq<nat>)
      requires Consistent(Now())
      modifies this`cancels, this`modems, this`equipment, this`pending
      ensures Now() == Unregistered(old(Now()), path)
      ensures oldCancels == ContextAt(old(Now()), path)
    {
      oldCancels := [];
      if path in cancels {
        oldCancels := oldCancels + [cancels[path]];
        pending := pending + {cancels[path]};
        cancels := Without(cancels, path);
        if path in modems {
          var equipmentID := modems[path];
          modems := Without(modems, path);
          equipment := Without(equipment, equipmentID);
        }
      }
    }

    method DropEquipment(equipmentID: string) returns (oldCancels: seq<nat>)
      requires Consistent(Now()) && equipmentID in equipment
      modifies this`cancels, this`modems, this`equipment, this`pending
      ensures Now() == Unregistered(old(Now()), old(equipment)[equipmentID])
      ensures oldCancels == ContextAt(old(Now()), old(equipment)[equipmentID])
    {
      oldCancels := [];
      var existing := equipment[equipmentID];
      if existing in cancels {
        oldCancels := oldCancels + [cancels[existing]];
        pending := pending + {cancels[existing]};
      }
      cancels := Without(cancels, existing);
      modems := Without(modems, existing);
      equipment := Without(equipment, equipmentID);
    }

    method RemoveLocked(path: Path) returns (cancel: Option<nat>)
      requires Consistent(Now())
      modifies this
      ensures Now() == Unregistered(old(Now()), path)
      ensures cancel == if path in old(cancels) then Some(old(cancels)[path]) else None
    {
      cancel := None;
      if path in cancels {
        cancel := Some(cancels[path]);
        pending := pending + {cancels[path]};
      }
      cancels := Without(cancels, path);
      if path in modems {
        equipment := Without(equipment, modems[path]);
        modems := Without(modems, path);
      }
    }

    method StopLocked() returns (all: set<nat>)
      modifies this
      ensures Now() == Stopped(old(Now())) && all == old(cancels).Values
    {
      all := cancels.Values;
      pending := pending + all;
      stopped, cancels, equipment, modems := true, map[], map[], map[];
    }

    method Cancel(id: nat)
      modifies this`cancelled, this`pending
      ensures Now() == Cancelled(old(Now()), id)
    {
      cancelled := cancelled + {id};
      pending := pending - {id};
    }

    /** What addModem goes on with, one step, after it has left the lock. */
    method Step(id: nat)
      requires id in adders
      modifies this`cancelled, this`pending, this`adders, this`launched
      ensures Now() == Stepped(old(Now()), id)
    {
      var left := adders[id];
      if |left| > 0 {
        Cancel(left[0]);
        adders := adders[id := left[1..]];
      } else {
        adders := adders - {id};
        launched := launched + {id};
      }
    }
  }

  // ----- what always holds -----

  /** What adders still have to cancel was handed out to them. */
  ghost predicate InHand(s: State) {
    forall id :: id in s.adders ==>
      id in s.tasks && forall k :: k in s.adders[id] ==> k in s.pending || k in s.cancelled
  }

  /** equipment and modems are inverse to each other, and only registered paths are in them. */
  ghost predicate Consistent(s: State) {
    && (forall e :: e in s.equipment ==> e != "" && s.equipment[e] in s.modems && s.modems[s.equipment[e]] == e)
    && (forall p :: p in s.modems ==> p in s.cancels && s.modems[p] in s.equipment && s.equipment[s.modems[p]] == p)
  }

  /** A registered context is that of the path's task and is neither cancelled nor about to be. */
  ghost predicate Registers(s: State) {
    forall p :: p in s.cancels ==>
      var id := s.cancels[p];
      && id in s.tasks && s.tasks[id].path == p && id !in s.cancelled && id !in s.pending
      && s.tasks[id].equipment == (if p in s.modems then s.modems[p] else "")
  }

  /** Every other task is cancelled or about to be. */
  ghost predicate Accounted(s: State) {
    && s.pending <= s.tasks.Keys && s.pending !! s.cancelled
    && forall id :: id in s.tasks && id !in s.cancelled && id !in s.pending ==>
      s.tasks[id].path in s.cancels && s.cancels[s.tasks[id].path] == id
  }

  ghost predicate Inv(s: State) {
    && Consistent(s) && Registers(s) && Accounted(s) && InHand(s)
    && (s.stopped ==> s.cancels == map[])
  }

  lemma UnregisteredIsConsistent(s: State, path: Path)
    requires Consistent(s)
    ensures var t := Unregistered(s, path); Consistent(t) && path !in t.cancels && path !in t.modems
  {
  }

  datatype Action =
    | Add(path: Path, equipment: string)
    | Remove(path: Path)
    | Stop
    | CancelPending(id: nat)
    | AdderStep(id: nat)
    | CancelAll

  /** Ids are handed out in order; whoever was handed a context may cancel it; an adder takes its steps in order. */
  function After(s: State, a: Action): State {
    match a
    case Add(path, equipment) => Added(s, |s.tasks|, path, equipment)
    case Remove(path) => Unregistered(s, path)
    case Stop => Stopped(s)
    case CancelPending(id) => if id in s.pending then Cancelled(s, id) else s
    case AdderStep(id) => if id in s.adders then Stepped(s, id) else s
    case CancelAll => s.(down := true)
  }

  ghost predicate Numbered(s: State) {
    && (forall id :: id in s.tasks ==> id < |s.tasks|)
    && s.cancelled <= s.tasks.Keys && s.launched <= s.tasks.Keys
  }

  lemma UnregisteredKeeps(s: State, path: Path)
    requires Inv(s) && Numbered(s)
    ensures var t := Unregistered(s, path);
      && Inv(t) && Numbered(t) && path !in t.cancels && path !in t.modems
      && t.tasks == s.tasks && t.stopped == s.stopped
  {
    UnregisteredIsConsistent(s, path);
    UnregisteredRegisters(s, path);
    UnregisteredIsAccounted(s, path);
  }

  lemma UnregisteredRegisters(s: State, path: Path)
    requires Consistent(s) && Registers(s)
    ensures Registers(Unregistered(s, path))
  {
  }

  lemma UnregisteredIsAccounted(s: State, path: Path)
    requires Registers(s) && Accounted(s)
    ensures Accounted(Unregistered(s, path))
  {
  }

  lemma RegisteredKeeps(s: State, path: Path, equipment: string, oldCancels: seq<nat>)
    requires Inv(s) && Numbered(s) && !s.stopped && path !in s.cancels && equipment !in s.equipment
    requires forall k :: k in oldCancels ==> k in s.pending
    ensures var t := Registered(s, |s.tasks|, path, equipment, oldCancels); Inv(t) && Numbered(t)
  {
    assert |s.tasks| !in s.tasks;
    OneMoreTask(s, path, equipment);
    RegisteredIsConsistent(s, |s.tasks|, path, equipment, oldCancels);
    RegisteredRegisters(s, |s.tasks|, path, equipment, oldCancels);
    RegisteredIsAccounted(s, |s.tasks|, path, equipment, oldCancels);
    RegisteredInHand(s, |s.tasks|, path, equipment, oldCancels);
  }

  lemma OneMoreTask(s: State, path: Path, equipment: string)
    requires forall id :: id in s.tasks ==> id < |s.tasks|
    ensures |s.tasks[|s.tasks| := Task(path, equipment)]| == |s.tasks| + 1
  {
    var tasks := s.tasks[|s.tasks| := Task(path, equipment)];
    assert tasks.Keys == s.tasks.Keys + {|s.tasks|};
  }

  lemma RegisteredIsConsistent(s: State, id: nat, path: Path, equipment: string, oldCancels: seq<nat>)
    requires Consistent(s) && path !in s.cancels && equipment !in s.equipment
    ensures Consistent(Registered(s, id, path, equipment, oldCancels))
  {
  }

  lemma RegisteredRegisters(s: State, id: nat, path: Path, equipment: string, oldCancels: seq<nat>)
    requires Consistent(s) && Registers(s) && path !in s.cancels
    requires id !in s.tasks && id !in s.cancelled && id !in s.pending
    ensures Registers(Registered(s, id, path, equipment, oldCancels))
  {
  }

  lemma RegisteredIsAccounted(s: State, id: nat, path: Path, equipment: string, oldCancels: seq<nat>)
    requires Accounted(s) && path !in s.cancels
    ensures Accounted(Registered(s, id, path, equipment, oldCancels))
  {
  }

  lemma RegisteredInHand(s: State, id: nat, path: Path, equipment: string, oldCancels: seq<nat>)
    requires InHand(s) && forall k :: k in oldCancels ==> k in s.pending
    ensures InHand(Registered(s, id, path, equipment, oldCancels))
  {
  }

  /** What makes way is handed out. */
  lemma DisplacedPend(s: State, path: Path, equipment: string)
    ensures var t := Unregistered(s, path);
      var u := if equipment in t.equipment then Unregistered(t, t.equipment[equipment]) else t;
      forall k :: k in Displaced(s, path, equipment) ==> k in u.pending
  {
  }

  lemma AddedKeeps(s: State, path: Path, equipment: string)
    requires Inv(s) && Numbered(s)
    ensures var t := Added(s, |s.tasks|, path, equipment); Inv(t) && Numbered(t)
  {
    if !s.stopped {
      var t := Unregistered(s, path);
      UnregisteredKeeps(s, path);
      if equipment in t.equipment { UnregisteredKeeps(t, t.equipment[equipment]); }
      var u := if equipment in t.equipment then Unregistered(t, t.equipment[equipment]) else t;
      DisplacedPend(s, path, equipment);
      RegisteredKeeps(u, path, equipment, Displaced(s, path, equipment));
    }
  }

  lemma StoppedKeeps(s: State)
    requires Inv(s) && Numbered(s)
    ensures Inv(Stopped(s)) && Numbered(Stopped(s))
  {
  }

  lemma SteppedKeeps(s: State, id: nat)
    requires Inv(s) && Numbered(s) && id in s.adders
    ensures Inv(Stepped(s, id)) && Numbered(Stepped(s, id))
  {
    var left := s.adders[id];
    if left != [] {
      assert left[0] in left;
      NextKeeps(s, left[0]);
      FewerKeeps(Cancelled(s, left[0]), id, left[1..]);
    }
  }

  lemma NextKeeps(s: State, k: nat)
    requires Inv(s) && Numbered(s) && (k in s.pending || k in s.cancelled)
    ensures Inv(Cancelled(s, k)) && Numbered(Cancelled(s, k))
  {
  }

  lemma FewerKeeps(s: State, id: nat, left: seq<nat>)
    requires Inv(s) && Numbered(s) && id in s.adders && forall k :: k in left ==> k in s.adders[id]
    ensures Inv(s.(adders := s.adders[id := left])) && Numbered(s.(adders := s.adders[id := left]))
  {
  }

  lemma StepKeeps(s: State, a: Action)
    requires Inv(s) && Numbered(s)
    ensures Inv(After(s, a)) && Numbered(After(s, a))
  {
    match a
    case Add(path, equipment) => AddedKeeps(s, path, equipment);
    case Remove(path) => UnregisteredKeeps(s, path);
    case Stop => StoppedKeeps(s);
    case CancelPending(id) => if id in s.pending { NextKeeps(s, id); }
    case AdderStep(id) => if id in s.adders { SteppedKeeps(s, id); }
    case CancelAll =>
  }

  function Ran(s: State, actions: seq<Action>): State
    decreases |actions|
  {
    if actions == [] then s else After(Ran(s, actions[..|actions| - 1]), actions[|actions| - 1])
  }

  lemma {:induction false} RunKeepsFrom(s: State, actions: seq<Action>)
    requires Inv(s) && Numbered(s)
    ensures Inv(Ran(s, actions)) && Numbered(Ran(s, actions))
    decreases |actions|
  {
    if actions != [] {
      RunKeepsFrom(s, actions[..|actions| - 1]);
      StepKeeps(Ran(s, actions[..|actions| - 1]), actions[|actions| - 1]);
    }
  }

  lemma RunKeeps(actions: seq<Action>)
    ensures Inv(Ran(EMPTY, actions)) && Numbered(Ran(EMPTY, actions))
  {
    RunKeepsFrom(EMPTY, actions);
  }

  /** A task's context is not cancelled, neither on its own nor with all others. */
  predicate Live(s: State, id: nat) {
    id in s.tasks && id !in s.cancelled && !s.down
  }

  /** Of the tasks of one equipment id, at most one is live and not about to be cancelled. */
  predicate OneLive(s: State) {
    forall i, j :: i in s.tasks && j in s.tasks && s.tasks[i].equipment == s.tasks[j].equipment != "" ==>
      (Live(s, i) && i !in s.pending && Live(s, j) && j !in s.pending ==> i == j)
  }

  lemma InvGivesOneLive(s: State)
    requires Inv(s)
    ensures OneLive(s)
  {
  }

  /**
   After any interleaving: the maps are inverse, the contexts not cancelled
   are exactly those registered or about to be cancelled, unless all are, and
   every equipment id has at most one that is not about to be.
   */
  lemma AlwaysOneLive(actions: seq<Action>)
    ensures var s := Ran(EMPTY, actions);
      && Consistent(s)
      && (forall id :: Live(s, id) <==> !s.down && (id in s.cancels.Values || id in s.pending))
      && OneLive(s)
  {
    RunKeeps(actions);
    InvGivesOneLive(Ran(EMPTY, actions));
  }

  // ----- replacing and stopping -----

  /** The task makes its adder wait for the context: it is cancelled, or still to be cancelled before the launch. */
  predicate Waits(s: State, id: nat, k: nat) {
    && id in s.tasks && (id in s.launched ==> k in s.cancelled)
    && (k in s.cancelled || (id in s.adders && k in s.adders[id]))
  }

  lemma StepWaits(s: State, a: Action, id: nat, k: nat)
    requires Numbered(s) && Waits(s, id, k)
    ensures Waits(After(s, a), id, k)
  {
    assert |s.tasks| !in s.tasks;
    if a.AdderStep? && a.id in s.adders { SteppedWaits(s, a.id, id, k); }
  }

  lemma SteppedWaits(s: State, adder: nat, id: nat, k: nat)
    requires adder in s.adders && Waits(s, id, k)
    ensures Waits(Stepped(s, adder), id, k)
  {
    var left := s.adders[adder];
    assert left != [] ==> forall x :: x in left <==> x == left[0] || x in left[1..];
  }

  lemma {:induction false} KeepsWaiting(s: State, later: seq<Action>, id: nat, k: nat)
    requires Inv(s) && Numbered(s) && Waits(s, id, k)
    ensures Inv(Ran(s, later)) && Numbered(Ran(s, later)) && Waits(Ran(s, later), id, k)
    decreases |later|
  {
    if later != [] {
      var t := Ran(s, later[..|later| - 1]);
      KeepsWaiting(s, later[..|later| - 1], id, k);
      StepKeeps(t, later[|later| - 1]);
      StepWaits(t, later[|later| - 1], id, k);
    }
  }

  lemma AddedWaits(s: State, path: Path, equipment: string, k: nat)
    requires Inv(s) && Numbered(s) && !s.stopped && k in Displaced(s, path, equipment)
    ensures Waits(Added(s, |s.tasks|, path, equipment), |s.tasks|, k)
  {
    assert |s.tasks| !in s.tasks;
  }

  /** The path's own task and that of the equipment make way. */
  predicate MakesWay(s: State, path: Path, equipment: string, p: Path) {
    p == path || (equipment in s.equipment && s.equipment[equipment] == p)
  }

  lemma DisplacedAre(s: State, path: Path, equipment: string)
    requires Consistent(s)
    ensures forall p :: p in s.cancels && MakesWay(s, path, equipment, p) ==>
      s.cancels[p] in Displaced(s, path, equipment)
    ensures forall k :: k in Displaced(s, path, equipment) ==>
      exists p :: p in s.cancels && s.cancels[p] == k && MakesWay(s, path, equipment, p)
  {
  }

  lemma DisplacedWaits(s: State, path: Path, equipment: string, later: seq<Action>, k: nat)
    requires Inv(s) && Numbered(s) && !s.stopped && k in Displaced(s, path, equipment)
    ensures Waits(Ran(Added(s, |s.tasks|, path, equipment), later), |s.tasks|, k)
  {
    AddedWaits(s, path, equipment, k);
    AddedKeeps(s, path, equipment);
    KeepsWaiting(Added(s, |s.tasks|, path, equipment), later, |s.tasks|, k);
  }

  lemma AddThenLater(actions: seq<Action>, path: Path, equipment: string, later: seq<Action>)
    ensures var s := Ran(EMPTY, actions);
      Ran(EMPTY, actions + [Add(path, equipment)] + later) == Ran(Added(s, |s.tasks|, path, equipment), later)
  {
    var first := actions + [Add(path, equipment)];
    assert first[..|actions|] == actions;
    RunOn(first, later);
  }

  /** A task that replaces others is launched only after these were cancelled, whatever comes in between. */
  lemma ReplacedFirst(actions: seq<Action>, path: Path, equipment: string, later: seq<Action>)
    requires !Ran(EMPTY, actions).stopped
    ensures var s := Ran(EMPTY, actions); var t := Ran(EMPTY, actions + [Add(path, equipment)] + later);
      |s.tasks| in t.launched ==>
        && (path in s.cancels ==> s.cancels[path] in t.cancelled)
        && (equipment in s.equipment && s.equipment[equipment] in s.cancels ==>
              s.cancels[s.equipment[equipment]] in t.cancelled)
  {
    var s := Ran(EMPTY, actions);
    RunKeeps(actions);
    AddThenLater(actions, path, equipment, later);
    DisplacedAre(s, path, equipment);
    if path in s.cancels { DisplacedWaits(s, path, equipment, later, s.cancels[path]); }
    if equipment in s.equipment && s.equipment[equipment] in s.cancels {
      DisplacedWaits(s, path, equipment, later, s.cancels[s.equipment[equipment]]);
    }
  }

  lemma {:induction false} StaysStopped(s: State, later: seq<Action>)
    requires s.stopped
    ensures Ran(s, later).stopped && Ran(s, later).tasks == s.tasks
    decreases |later|
  {
    if later != [] {
      StaysStopped(s, later[..|later| - 1]);
      StoppedStep(Ran(s, later[..|later| - 1]), later[|later| - 1]);
    }
  }

  lemma StoppedStep(s: State, a: Action)
    requires s.stopped
    ensures After(s, a).stopped && After(s, a).tasks == s.tasks
  {
  }

  /**
   After a stop no context is created. A task registered before may still be
   launched, but with a context that is cancelled or about to be.
   */
  lemma StopIsFinal(actions: seq<Action>, later: seq<Action>)
    ensures var s := Ran(EMPTY, actions + [Stop]); var t := Ran(EMPTY, actions + [Stop] + later);
      && t.tasks == s.tasks && t.launched <= s.tasks.Keys
      && (forall id :: Live(t, id) ==> id in t.pending)
  {
    var first := actions + [Stop];
    assert first[..|actions|] == actions;
    RunOn(first, later);
    StaysStopped(Ran(EMPTY, first), later);
    RunKeeps(first + later);
  }

  lemma {:induction false} RunOn(first: seq<Action>, later: seq<Action>)
    ensures Ran(EMPTY, first + later) == Ran(Ran(EMPTY, first), later)
    decreases |later|
  {
    if later == [] {
      assert first + later == first;
    } else {
      RunOn(first, later[..|later| - 1]);
      assert (first + later)[..|first + later| - 1] == first + later[..|later| - 1];
    }
  }

  // ----- getting somewhere -----

  function Repeated(a: Action, n: nat): seq<Action> {
    seq(n, _ => a)
  }

  /** The contexts that the adder has cancelled after so many steps. */
  function FirstOf(left: seq<nat>, n: nat): set<nat>
    requires n <= |left|
  {
    set i | 0 <= i < n :: left[i]
  }

  /** s with the adder so many steps on: it cancels what it was handed, one context a step, and touches nothing else. */
  predicate StepsOn(s: State, id: nat, n: nat, t: State)
    requires id in s.adders && n <= |s.adders[id]|
  {
    var done := FirstOf(s.adders[id], n);
    t == s.(adders := s.adders[id := s.adders[id][n..]], cancelled := s.cancelled + done, pending := s.pending - done)
  }

  lemma OneOn(s: State, id: nat, n: nat, t: State)
    requires id in s.adders && n < |s.adders[id]| && StepsOn(s, id, n, t)
    ensures StepsOn(s, id, n + 1, Stepped(t, id))
  {
    var left := s.adders[id];
    assert left[n..][0] == left[n] && left[n..][1..] == left[n + 1..];
    assert FirstOf(left, n + 1) == FirstOf(left, n) + {left[n]};
    assert t.adders[id := left[n + 1..]] == s.adders[id := left[n + 1..]];
    Together(s.cancelled, s.pending, FirstOf(left, n), left[n]);
  }

  lemma Together(cancelled: set<nat>, pending: set<nat>, done: set<nat>, k: nat)
    ensures cancelled + done + {k} == cancelled + (done + {k}) && pending - done - {k} == pending - (done + {k})
  {
  }

  lemma RepeatedStep(s: State, a: Action, n: nat)
    ensures Ran(s, Repeated(a, n + 1)) == After(Ran(s, Repeated(a, n)), a)
  {
    assert Repeated(a, n + 1)[..n] == Repeated(a, n);
  }

  lemma {:induction false} CancelsFirst(s: State, id: nat, n: nat)
    requires id in s.adders && n <= |s.adders[id]|
    ensures StepsOn(s, id, n, Ran(s, Repeated(AdderStep(id), n)))
    decreases n
  {
    if n == 0 {
      assert s.adders[id := s.adders[id][0..]] == s.adders && FirstOf(s.adders[id], 0) == {};
      assert s.cancelled + {} == s.cancelled && s.pending - {} == s.pending;
    } else {
      CancelsFirst(s, id, n - 1);
      RepeatedStep(s, AdderStep(id), n - 1);
      OneOn(s, id, n - 1, Ran(s, Repeated(AdderStep(id), n - 1)));
    }
  }

  /** s with the adder through: all it was handed is cancelled, and its task launched. */
  predicate IsThrough(s: State, id: nat, t: State)
    requires id in s.adders
  {
    var all := AsSet(s.adders[id]);
    t == s.(adders := s.adders - {id}, launched := s.launched + {id},
            cancelled := s.cancelled + all, pending := s.pending - all)
  }

  function AsSet(ks: seq<nat>): set<nat> {
    set k | k in ks
  }

  lemma LastStep(s: State, id: nat, t: State)
    requires id in s.adders && StepsOn(s, id, |s.adders[id]|, t)
    ensures IsThrough(s, id, Stepped(t, id))
  {
    var left := s.adders[id];
    assert FirstOf(left, |left|) == AsSet(left);
    assert t.adders[id] == [] && t.adders - {id} == s.adders - {id};
  }

  /** Left alone, an adder cancels all it was handed, one context a step, and launches its task with the next one. */
  lemma AdderLaunches(s: State, id: nat)
    requires id in s.adders
    ensures IsThrough(s, id, Ran(s, Repeated(AdderStep(id), |s.adders[id]| + 1)))
  {
    var n := |s.adders[id]|;
    CancelsFirst(s, id, n);
    RepeatedStep(s, AdderStep(id), n);
    LastStep(s, id, Ran(s, Repeated(AdderStep(id), n)));
  }

  // ----- the others -----

  lemma UnregisteredOthers(s: State, path: Path, p: Path)
    requires p != path
    ensures var t := Unregistered(s, path);
      (p in t.cancels <==> p in s.cancels) && (p in s.cancels ==> t.cancels[p] == s.cancels[p])
  {
  }

  /** A task that is added leaves those of other modems as they are. */
  lemma OthersStay(s: State, path: Path, equipment: string, p: Path)
    requires Consistent(s) && p in s.cancels && !MakesWay(s, path, equipment, p)
    ensures var t := Added(s, |s.tasks|, path, equipment); p in t.cancels && t.cancels[p] == s.cancels[p]
  {
    var t := Unregistered(s, path);
    UnregisteredOthers(s, path, p);
    if equipment in t.equipment { UnregisteredOthers(t, t.equipment[equipment], p); }
  }

  lemma UnregisteredPends(s: State, path: Path)
    ensures Unregistered(s, path).pending == s.pending + AsSet(ContextAt(s, path))
  {
    assert s.pending + AsSet([]) == s.pending;
  }

  lemma AsSetJoins(a: seq<nat>, b: seq<nat>)
    ensures AsSet(a + b) == AsSet(a) + AsSet(b)
  {
  }

  /** It hands out what makes way, and nothing else. */
  lemma OnlyHandedOut(s: State, path: Path, equipment: string)
    requires !s.stopped
    ensures Added(s, |s.tasks|, path, equipment).pending == s.pending + AsSet(Displaced(s, path, equipment))
  {
    var t := Unregistered(s, path);
    UnregisteredPends(s, path);
    if equipment in t.equipment {
      UnregisteredPends(t, t.equipment[equipment]);
      AsSetJoins(ContextAt(s, path), ContextAt(t, t.equipment[equipment]));
    } else {
      AsSetJoins(ContextAt(s, path), []);
    }
  }

  /** The task is registered and launched, and it lives unless all are cancelled. */
  predicate HasLaunched(u: State, id: nat, task: Task, down: bool) {
    && id in u.launched && id in u.tasks && u.tasks[id] == task
    && task.path in u.cancels && u.cancels[task.path] == id && (Live(u, id) <==> !down)
  }

  lemma JustAdded(s: State, id: nat, path: Path, equipment: string)
    requires !s.stopped
    ensures var t := Added(s, id, path, equipment);
      && id in t.adders && id in t.tasks && t.tasks[id] == Task(path, equipment)
      && path in t.cancels && t.cancels[path] == id && t.down == s.down
  {
  }

  lemma ThroughHasLaunched(t: State, id: nat, u: State, task: Task)
    requires id in t.adders && IsThrough(t, id, u) && Registers(u)
    requires id in t.tasks && t.tasks[id] == task && task.path in t.cancels && t.cancels[task.path] == id
    ensures HasLaunched(u, id, task, t.down)
  {
  }

  /** What an adder left alone makes of the state. */
  function LeftAlone(t: State, id: nat): State
    requires id in t.adders
  {
    Ran(t, Repeated(AdderStep(id), |t.adders[id]| + 1))
  }

  lemma AdderGetsThrough(t: State, id: nat, u: State, task: Task)
    requires Inv(t) && Numbered(t) && id in t.adders && u == LeftAlone(t, id)
    requires id in t.tasks && t.tasks[id] == task && task.path in t.cancels && t.cancels[task.path] == id
    ensures HasLaunched(u, id, task, t.down)
  {
    AdderLaunches(t, id);
    RunKeepsFrom(t, Repeated(AdderStep(id), |t.adders[id]| + 1));
    ThroughHasLaunched(t, id, u, task);
  }

  /** A modem that comes while the runner runs has its task registered and, its adder left alone, launched. */
  lemma AddedIsLaunched(s: State, path: Path, equipment: string, id: nat, t: State)
    requires Inv(s) && Numbered(s) && !s.stopped && id == |s.tasks| && t == Added(s, id, path, equipment)
    ensures id in t.adders && HasLaunched(LeftAlone(t, id), id, Task(path, equipment), s.down)
  {
    AddedKeeps(s, path, equipment);
    JustAdded(s, id, path, equipment);
    AdderGetsThrough(t, id, LeftAlone(t, id), Task(path, equipment));
  }
}
