/**
 What the coordinator's sessions get to: left alone, a registered session
 connects when a dial succeeds, and connects again after a loss.
 */
module Reconnecting {
  import opened Options
  import opened Text
  import VoiceCalls
  import opened Coordinators
  import opened Fencing

  /** The session is registered, and its goroutine is there. */
  predicate IsAt(w: World, id: nat, m: string, place: Place) {
    id in w.tasks && w.tasks[id] == Task(m, place) && m in w.sessions && w.sessions[m].id == id
  }

  /** The session has this client since then; whose it is and its calls are as before. */
  predicate HasConnected(before: Session, client: nat, now: nat, after: Session) {
    && after.connected && after.client == Some(client) && after.phase == Connected && after.connectedAt == now
    && after.websheet == None
    && after.id == before.id && after.profile == before.profile && after.calls == before.calls
  }

  /** Without a client, and without a call that goes on. */
  predicate IsDown(s: Session) {
    && !s.connected && s.client == None && s.phase == Disconnected && s.connectedAt == 0
    && forall k :: k in s.calls ==> !VoiceCalls.Live(s.calls[k])
  }

  /** The session of a goroutine whose dial has succeeded is connected with its client after one more step. */
  lemma DialedConnects(w: World, id: nat, m: string, client: nat, outcome: Outcome, now: nat)
    requires IsAt(w, id, m, Dialed(client))
    ensures var u := After(w, Go(id, outcome, now));
      IsAt(u, id, m, Watching(client)) && HasConnected(w.sessions[m], client, now, u.sessions[m])
  {
  }

  /** What a goroutine at this place does next, if its session is registered and not cancelled. */
  lemma GoesOn(w: World, id: nat, m: string, place: Place, outcome: Outcome, now: nat)
    requires IsAt(w, id, m, place) && id !in w.cancelled
    ensures var u := After(w, Go(id, outcome, now));
      && (place.Watching? ==> IsAt(u, id, m, Leaving(place.client)))
      && (place.Leaving? ==> IsAt(u, id, m, Delaying) && u.sessions[m].phase == Connecting && !u.sessions[m].connected)
      && (place == Delaying ==> IsAt(u, id, m, Starting))
      && (place == Starting ==> IsAt(u, id, m, Dialing) && u.sessions[m].phase == Connecting)
      && (place == Dialing && outcome == Retry ==> IsAt(u, id, m, Dialing))
      && (place == Dialing && outcome == Success ==> IsAt(u, id, m, Dialed(w.lastClient + 1)))
      && id !in u.cancelled
      && u.lastClient == w.lastClient + (if place == Dialing && outcome == Success then 1 else 0)
  {
  }

  /** The goroutine is left alone: its next steps, one outcome after the other. */
  function LeftAlone(w: World, id: nat, outcomes: seq<Outcome>, now: nat): World
    decreases |outcomes|
  {
    if outcomes == [] then w else LeftAlone(After(w, Go(id, outcomes[0], now)), id, outcomes[1..], now)
  }

  lemma OneStep(w: World, id: nat, outcome: Outcome, rest: seq<Outcome>, now: nat)
    ensures LeftAlone(w, id, [outcome] + rest, now) == LeftAlone(After(w, Go(id, outcome, now)), id, rest, now)
  {
    assert ([outcome] + rest)[1..] == rest;
  }

  function Retries(n: nat): seq<Outcome> {
    seq(n, _ => Retry)
  }

  /** At a place, not cancelled, with so many clients dialed so far. */
  predicate Awaits(w: World, id: nat, m: string, place: Place, clients: nat) {
    IsAt(w, id, m, place) && id !in w.cancelled && w.lastClient == clients
  }

  /** The session is connected, with this client, which its goroutine watches. */
  predicate IsConnected(w: World, id: nat, m: string, client: nat) {
    IsAt(w, id, m, Watching(client)) && w.sessions[m].connected && w.sessions[m].client == Some(client)
  }

  lemma SecondTry(w: World, id: nat, m: string, last: Outcome, now: nat)
    requires Awaits(w, id, m, Dialing, w.lastClient)
    ensures IsConnected(LeftAlone(w, id, [Success] + [last], now), id, m, w.lastClient + 1)
  {
    var b := After(w, Go(id, Success, now));
    OneStep(w, id, Success, [last], now);
    GoesOn(w, id, m, Dialing, Success, now);
    DialedConnects(b, id, m, w.lastClient + 1, last, now);
    OneStep(b, id, last, [], now);
    assert [last] + [] == [last];
  }

  /** However often the dial has to be repeated, a registered session is connected when it succeeds. */
  lemma {:induction false} DialsThrough(w: World, id: nat, m: string, retries: nat, last: Outcome, now: nat)
    requires Awaits(w, id, m, Dialing, w.lastClient)
    ensures IsConnected(LeftAlone(w, id, Retries(retries) + [Success, last], now), id, m, w.lastClient + 1)
    decreases retries
  {
    if retries == 0 {
      assert Retries(0) + [Success, last] == [Success] + [last];
      SecondTry(w, id, m, last, now);
    } else {
      GoesOn(w, id, m, Dialing, Retry, now);
      assert Retries(retries) + [Success, last] == [Retry] + (Retries(retries - 1) + [Success, last]);
      OneStep(w, id, Retry, Retries(retries - 1) + [Success, last], now);
      DialsThrough(After(w, Go(id, Retry, now)), id, m, retries - 1, last, now);
    }
  }

  /** A session just started gets there, when the dial succeeds in the end. */
  lemma StartConnects(w: World, id: nat, m: string, first: Outcome, retries: nat, last: Outcome, now: nat)
    requires IsAt(w, id, m, Starting) && id !in w.cancelled
    ensures var steps := [first] + (Retries(retries) + [Success, last]);
      IsConnected(LeftAlone(w, id, steps, now), id, m, w.lastClient + 1)
  {
    GoesOn(w, id, m, Starting, first, now);
    OneStep(w, id, first, Retries(retries) + [Success, last], now);
    DialsThrough(After(w, Go(id, first, now)), id, m, retries, last, now);
  }

  /** So does one whose connection is lost, and its client is a new one. */
  lemma LostConnects(w: World, id: nat, m: string, client: nat, first: seq<Outcome>, retries: nat, last: Outcome,
                     now: nat)
    requires IsAt(w, id, m, Watching(client)) && id !in w.cancelled && |first| == 4
    ensures var steps := first + (Retries(retries) + [Success, last]);
      IsConnected(LeftAlone(w, id, steps, now), id, m, w.lastClient + 1)
  {
    var w1 := After(w, Go(id, first[0], now));
    var w2 := After(w1, Go(id, first[1], now));
    var w3 := After(w2, Go(id, first[2], now));
    GoesOn(w, id, m, Watching(client), first[0], now);
    GoesOn(w1, id, m, Leaving(client), first[1], now);
    GoesOn(w2, id, m, Delaying, first[2], now);
    StartConnects(w3, id, m, first[3], retries, last, now);
    ThreeSteps(w, id, first, Retries(retries) + [Success, last], now);
  }

  lemma ThreeSteps(w: World, id: nat, first: seq<Outcome>, rest: seq<Outcome>, now: nat)
    requires |first| == 4
    ensures LeftAlone(w, id, first + rest, now) ==
      LeftAlone(After(After(After(w, Go(id, first[0], now)), Go(id, first[1], now)), Go(id, first[2], now)), id,
        [first[3]] + rest, now)
  {
    var three := [first[3]] + rest;
    var two := [first[2]] + three;
    var one := [first[1]] + two;
    assert first + rest == [first[0]] + one;
    OneStep(w, id, first[0], one, now);
    OneStep(After(w, Go(id, first[0], now)), id, first[1], two, now);
    OneStep(After(After(w, Go(id, first[0], now)), Go(id, first[1], now)), id, first[2], three, now);
  }

  /** A loss that the goroutine sees, and a reconnect that a holder of the client asks for, take the session down. */
  lemma LossIsNoticed(w: World, id: nat, m: string, client: nat, outcome: Outcome, now: nat)
    requires IsAt(w, id, m, Watching(client)) && w.sessions[m].client == Some(client) && now > 0
    ensures outcome != Signalled ==> IsDown(After(w, Go(id, outcome, now)).sessions[m])
    ensures client in w.owner ==> IsDown(After(w, Reconnect(m, client, now)).sessions[m])
  {
    VoiceCalls.NoneLive(w.sessions[m].calls, now);
  }

  /** A dial that needs a websheet shows a new one, and the goroutine gets hold of it; a later step takes it away. */
  lemma SheetComesAndGoes(w: World, id: nat, m: string, outcome: Outcome, now: nat)
    requires IsAt(w, id, m, Dialing)
    ensures var sheet := w.lastSheet + 1;
      var a := After(w, Go(id, NeedsSheet, now));
      var b := After(a, Go(id, outcome, now));
      && a.sessions[m].phase == WebsheetRequired && a.sessions[m].websheet == Some(sheet)
      && IsAt(b, id, m, Holding(sheet))
      && (var c := After(b, Go(id, Retry, now));
          IsAt(c, id, m, Dialing) && c.sessions[m].phase == Connecting && c.sessions[m].websheet == None)
      && m !in After(After(b, Go(id, Dismiss, now)), Go(id, outcome, now)).sessions
  {
  }

  /** Starting and stopping: a new session under a new id, at its beginning, and none. */
  lemma StartsAndStops(w: World, m: string, profile: string)
    ensures Trim(m) != "" && m !in w.sessions ==>
      var u := After(w, Start(m, profile));
      && IsAt(u, w.lastSession + 1, m, Starting) && u.lastSession == w.lastSession + 1
      && u.sessions[m].phase == Connecting && !u.sessions[m].connected && u.sessions[m].profile == profile
    ensures Trim(m) == "" || m in w.sessions ==> After(w, Start(m, profile)) == w
    ensures m !in After(w, Stop(m)).sessions
    ensures forall other :: other in w.sessions && other != m ==>
      && other in After(w, Stop(m)).sessions && After(w, Stop(m)).sessions[other] == w.sessions[other]
  {
  }
}
