/**
 All interleavings of the coordinator's critical sections: users starting,
 stopping and restarting sessions, holders of a client asking for a
 reconnect, and one goroutine per session, live or left over.
 */
module Fencing {
  import opened Options
  import opened Text
  import opened Coordinators

  /** Where a session's goroutine is in its connect loop. */
  datatype Place =
    | Starting
    | Dialing
    | AwaitingWebsheet
    | Holding(websheet: nat)
    | Dismissing
    | Dialed(client: nat)
    | Watching(client: nat)
    | Leaving(client: nat)
    | Delaying
    | Done

  datatype Task = Task(modem: string, place: Place)

  /** owner says for which session a client was dialed. */
  datatype World = World(sessions: Sessions, lastSession: nat, lastClient: nat, lastSheet: nat,
                         tasks: map<nat, Task>, cancelled: set<nat>, owner: map<nat, nat>)

  /** What the outside gives a goroutine's next step: how a dial, a websheet or a watch ends. */
  datatype Outcome = Success | NeedsSheet | NeedsAction | Failure | Retry | Dismiss | Signalled

  datatype Action =
    | Start(modem: string, profile: string)
    | Stop(modem: string)
    | Cancel(id: nat)
    | Reconnect(modem: string, client: nat, now: nat)
    | Go(id: nat, outcome: Outcome, now: nat)

  predicate Live(w: World, id: nat) {
    exists m :: m in w.sessions && w.sessions[m].id == id
  }

  function At(w: World, id: nat, place: Place): World
    requires id in w.tasks
  {
    w.(tasks := w.tasks[id := w.tasks[id].(place := place)])
  }

  /** One critical section, or one wait, of a session's goroutine. */
  function Gone(w: World, id: nat, outcome: Outcome, now: nat): World
    requires id in w.tasks
  {
    var modem := w.tasks[id].modem;
    match w.tasks[id].place
    case Starting =>
      At(w.(sessions := MarkedConnecting(w.sessions, modem, id)), id, Dialing)
    case Dialing =>
      (match outcome
       case Success =>
         var client := w.lastClient + 1;
         At(w.(lastClient := client, owner := w.owner[client := id]), id, Dialed(client))
       case NeedsSheet =>
         var sheet := w.lastSheet + 1;
         At(w.(lastSheet := sheet, sessions := WithWebsheet(w.sessions, modem, id, sheet)), id, AwaitingWebsheet)
       case NeedsAction => At(w, id, AwaitingWebsheet)
       case Retry => At(w, id, Dialing)
       case _ => At(w, id, Done))
    case AwaitingWebsheet =>
      if Registered(w.sessions, modem, id) && w.sessions[modem].websheet.Some?
      then At(w, id, Holding(w.sessions[modem].websheet.value)) else At(w, id, Done)
    case Holding(sheet) =>
      (match outcome
       case Retry => At(w.(sessions := WithoutWebsheet(w.sessions, modem, id, sheet)), id, Dialing)
       case Dismiss => At(w.(sessions := WithoutWebsheet(w.sessions, modem, id, sheet)), id, Dismissing)
       case _ => At(w, id, Done))
    case Dismissing =>
      At(w.(sessions := DetachedById(w.sessions, modem, id)), id, Done)
    case Dialed(client) =>
      At(w.(sessions := MarkedConnected(w.sessions, modem, id, client, now)), id, Watching(client))
    case Watching(client) =>
      if outcome == Signalled then At(w, id, Leaving(client))
      else At(w.(sessions := MarkedDisconnected(w.sessions, modem, id, client, now)), id, Leaving(client))
    case Leaving(client) =>
      if id in w.cancelled then At(w, id, Done)
      else At(w.(sessions := MarkedConnecting(w.sessions, modem, id)), id, Delaying)
    case Delaying =>
      At(w, id, if id in w.cancelled then Done else Starting)
    case Done => w
  }

  /** Actions that are not possible change nothing. */
  function After(w: World, a: Action): World {
    match a
    case Start(modem, profile) =>
      if Trim(modem) == "" || modem in w.sessions then w else
        var id := w.lastSession + 1;
        w.(lastSession := id, sessions := w.sessions[modem := NewSession(id, profile)],
          tasks := w.tasks[id := Task(modem, Starting)])
    case Stop(modem) => w.(sessions := Detached(w.sessions, modem))
    case Cancel(id) =>
      // only a detached session is cancelled
      if id > w.lastSession || Live(w, id) then w else w.(cancelled := w.cancelled + {id})
    case Reconnect(modem, client, now) =>
      if client in w.owner then w.(sessions := ReconnectRequested(w.sessions, modem, client, now)) else w
    case Go(id, outcome, now) => if id in w.tasks then Gone(w, id, outcome, now) else w
  }

  // ----- the invariant -----

  /** The goroutine holds this client, and only then can its session have one. */
  predicate MayHold(place: Place, client: Option<nat>) {
    match place
    case Watching(c) => client == None || client == Some(c)
    case Leaving(c) => client == None || client == Some(c)
    case _ => client == None
  }

  ghost predicate SessionOk(w: World, modem: string)
    requires modem in w.sessions
  {
    var s := w.sessions[modem];
    && s.id <= w.lastSession && s.id !in w.cancelled
    && s.id in w.tasks && w.tasks[s.id].modem == modem
    && Coherent(s)
    && MayHold(w.tasks[s.id].place, s.client)
    && (s.client.Some? ==> s.client.value in w.owner && w.owner[s.client.value] == s.id)
  }

  ghost predicate TaskOk(w: World, id: nat)
    requires id in w.tasks
  {
    && 0 < id <= w.lastSession
    && match w.tasks[id].place
       case Dialed(c) => c in w.owner && w.owner[c] == id
       case Watching(c) => c in w.owner && w.owner[c] == id
       case Leaving(c) => c in w.owner && w.owner[c] == id
       case _ => true
  }

  ghost predicate Inv(w: World) {
    && (forall m :: m in w.sessions ==> SessionOk(w, m))
    && (forall id :: id in w.tasks ==> TaskOk(w, id))
    && (forall c :: c in w.owner ==> c <= w.lastClient)
    && (forall id :: id in w.cancelled ==> id <= w.lastSession)
  }

  /** A goroutine's step leaves every session but its own alone. */
  lemma OwnSessionOnly(w: World, id: nat, outcome: Outcome, now: nat, m: string)
    requires id in w.tasks && m in w.sessions && w.sessions[m].id != id
    ensures var u := Gone(w, id, outcome, now); m in u.sessions && u.sessions[m] == w.sessions[m]
  {
  }

  lemma OwnSessionStaysOk(w: World, id: nat, outcome: Outcome, now: nat, m: string)
    requires id in w.tasks && TaskOk(w, id)
    requires m in w.sessions && w.sessions[m].id == id && SessionOk(w, m)
    requires m in Gone(w, id, outcome, now).sessions
    requires w.lastClient + 1 !in w.owner
    ensures SessionOk(Gone(w, id, outcome, now), m)
  {
    match w.tasks[id].place
    case Dialing =>
    case Holding(sheet) =>
    case Watching(client) =>
    case _ =>
  }

  lemma OtherSessionStaysOk(w: World, id: nat, outcome: Outcome, now: nat, m: string)
    requires id in w.tasks
    requires m in w.sessions && w.sessions[m].id != id && SessionOk(w, m)
    requires w.lastClient + 1 !in w.owner
    ensures var u := Gone(w, id, outcome, now); m in u.sessions && SessionOk(u, m)
  {
    OwnSessionOnly(w, id, outcome, now, m);
  }

  lemma TaskStaysOk(w: World, id: nat, outcome: Outcome, now: nat, t: nat)
    requires id in w.tasks && TaskOk(w, id) && t in w.tasks && TaskOk(w, t)
    requires w.lastClient + 1 !in w.owner
    ensures t in Gone(w, id, outcome, now).tasks && TaskOk(Gone(w, id, outcome, now), t)
  {
  }

  lemma GoneFrame(w: World, id: nat, outcome: Outcome, now: nat)
    requires id in w.tasks
    ensures var u := Gone(w, id, outcome, now);
      && u.tasks.Keys == w.tasks.Keys && u.cancelled == w.cancelled && u.lastSession == w.lastSession
      && u.lastClient >= w.lastClient
      && (forall c :: c in u.owner ==> c in w.owner || c <= u.lastClient)
  {
  }

  lemma GoneSessions(w: World, id: nat, outcome: Outcome, now: nat)
    requires id in w.tasks
    ensures Gone(w, id, outcome, now).sessions.Keys <= w.sessions.Keys
  {
  }

  lemma GoKeeps(w: World, id: nat, outcome: Outcome, now: nat)
    requires Inv(w) && id in w.tasks
    ensures Inv(Gone(w, id, outcome, now))
  {
    var u := Gone(w, id, outcome, now);
    GoneFrame(w, id, outcome, now);
    GoneSessions(w, id, outcome, now);
    forall m | m in u.sessions ensures SessionOk(u, m) {
      if w.sessions[m].id != id {
        OtherSessionStaysOk(w, id, outcome, now, m);
      } else {
        OwnSessionStaysOk(w, id, outcome, now, m);
      }
    }
    forall t | t in u.tasks ensures TaskOk(u, t) {
      TaskStaysOk(w, id, outcome, now, t);
    }
  }

  lemma StartKeeps(w: World, modem: string, profile: string)
    requires Inv(w)
    ensures Inv(After(w, Start(modem, profile)))
  {
    var u := After(w, Start(modem, profile));
    forall m | m in u.sessions ensures SessionOk(u, m) {
      assert m in w.sessions ==> SessionOk(w, m);
    }
    forall t | t in u.tasks ensures TaskOk(u, t) {
      assert t in w.tasks ==> TaskOk(w, t);
    }
  }

  lemma OthersKeep(w: World, a: Action)
    requires Inv(w) && !a.Start? && !a.Go?
    ensures Inv(After(w, a))
  {
    var u := After(w, a);
    forall m | m in u.sessions ensures SessionOk(u, m) {
      assert SessionOk(w, m);
    }
    forall t | t in u.tasks ensures TaskOk(u, t) {
      assert TaskOk(w, t);
    }
  }

  lemma StepKeeps(w: World, a: Action)
    requires Inv(w)
    ensures Inv(After(w, a))
  {
    match a
    case Start(modem, profile) => StartKeeps(w, modem, profile);
    case Go(id, outcome, now) => if id in w.tasks { GoKeeps(w, id, outcome, now); }
    case _ => OthersKeep(w, a);
  }

  const EMPTY := World(map[], 0, 0, 0, map[], {}, map[])

  function Ran(w: World, actions: seq<Action>): World
    decreases |actions|
  {
    if actions == [] then w else After(Ran(w, actions[..|actions| - 1]), actions[|actions| - 1])
  }

  lemma {:induction false} RunKeeps(w: World, actions: seq<Action>)
    requires Inv(w)
    ensures Inv(Ran(w, actions))
    decreases |actions|
  {
    if actions != [] {
      RunKeeps(w, actions[..|actions| - 1]);
      StepKeeps(Ran(w, actions[..|actions| - 1]), actions[|actions| - 1]);
    }
  }

  /**
   After any interleaving, every registered session is coherent and not
   cancelled, has its own goroutine, and a client it has was dialed for it and
   is still in that goroutine's hands.
   */
  lemma AlwaysCoherent(actions: seq<Action>, m: string)
    requires m in Ran(EMPTY, actions).sessions
    ensures var w := Ran(EMPTY, actions); var s := w.sessions[m];
      && Coherent(s) && s.id !in w.cancelled
      && s.id in w.tasks && w.tasks[s.id].modem == m
      && (s.client.Some? ==>
            && s.client.value in w.owner && w.owner[s.client.value] == s.id
            && w.tasks[s.id].place in {Watching(s.client.value), Leaving(s.client.value)})
  {
    RunKeeps(EMPTY, actions);
    assert SessionOk(Ran(EMPTY, actions), m);
  }

  // ----- fencing -----

  lemma SameId(w: World, t: nat, outcome: Outcome, now: nat, m: string)
    requires t in w.tasks && m in Gone(w, t, outcome, now).sessions
    ensures m in w.sessions && Gone(w, t, outcome, now).sessions[m].id == w.sessions[m].id
  {
  }

  /** An id once used and no longer registered never comes back. */
  lemma NeverAgain(w: World, a: Action, id: nat)
    requires Inv(w) && id <= w.lastSession && !Live(w, id)
    ensures !Live(After(w, a), id) && id <= After(w, a).lastSession
  {
    var u := After(w, a);
    match a
    case Go(t, outcome, now) =>
      if t in w.tasks {
        forall m | m in u.sessions ensures u.sessions[m].id != id {
          SameId(w, t, outcome, now, m);
        }
      }
    case _ =>
      forall m | m in u.sessions ensures u.sessions[m].id != id {
        assert m in w.sessions ==> w.sessions[m].id != id;
      }
  }

  lemma {:induction false} DetachedForGood(w: World, actions: seq<Action>, id: nat)
    requires Inv(w) && id <= w.lastSession && !Live(w, id)
    ensures !Live(Ran(w, actions), id)
    ensures id <= Ran(w, actions).lastSession
    decreases |actions|
  {
    if actions != [] {
      var before := Ran(w, actions[..|actions| - 1]);
      RunKeeps(w, actions[..|actions| - 1]);
      DetachedForGood(w, actions[..|actions| - 1], id);
      NeverAgain(before, actions[|actions| - 1], id);
    }
  }

  /** The action is taken by the session's goroutine or by someone holding a client dialed for it. */
  predicate OnBehalfOf(w: World, a: Action, id: nat) {
    match a
    case Go(t, _, _) => t == id
    case Reconnect(_, client, _) => client in w.owner && w.owner[client] == id
    case _ => false
  }

  /**
   Once a session is detached, nothing done on its behalf, by its goroutine or
   by holders of its clients, ever changes any registered session again, its
   replacement on the same modem included.
   */
  lemma StaleActionsAreFenced(actions: seq<Action>, later: seq<Action>, id: nat, a: Action)
    requires var w := Ran(EMPTY, actions); id <= w.lastSession && !Live(w, id)
    requires var v := Ran(Ran(EMPTY, actions), later); OnBehalfOf(v, a, id)
    ensures var v := Ran(Ran(EMPTY, actions), later); After(v, a).sessions == v.sessions
  {
    var w := Ran(EMPTY, actions);
    RunKeeps(EMPTY, actions);
    RunKeeps(w, later);
    DetachedForGood(w, later, id);
    var v := Ran(w, later);
    StaleIsFenced(v, id, a);
  }

  lemma StaleIsFenced(v: World, id: nat, a: Action)
    requires Inv(v) && !Live(v, id) && OnBehalfOf(v, a, id)
    ensures After(v, a).sessions == v.sessions
  {
    match a
    case Go(t, outcome, now) =>
      if t in v.tasks { StaleGoIsFenced(v, t, outcome, now); }
    case Reconnect(modem, client, now) =>
      assert modem in v.sessions ==> SessionOk(v, modem);
  }

  lemma StaleGoIsFenced(v: World, id: nat, outcome: Outcome, now: nat)
    requires !Live(v, id) && id in v.tasks
    ensures Gone(v, id, outcome, now).sessions == v.sessions
  {
    assert !Registered(v.sessions, v.tasks[id].modem, id);
  }
}
