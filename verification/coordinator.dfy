/**
 The Wi-Fi Calling coordinator: one session per modem, changed only inside
 critical sections. A session's own goroutine names the session id it works
 for, other goroutines the client they hold.
 */
module Coordinators {
  import opened Options
  import opened Text
  import opened VoiceCalls

  datatype Phase = Connecting | Connected | WebsheetRequired | Disconnected

  datatype Session = Session(id: nat, phase: Phase, client: Option<nat>, connected: bool, connectedAt: nat,
                             websheet: Option<nat>, profile: string, calls: map<string, VoiceCall>)

  type Sessions = map<string, Session>

  /** connected, a client and the connected phase coincide; a required websheet is there. */
  predicate Coherent(s: Session) {
    && (s.connected <==> s.client.Some?)
    && (s.connected <==> s.phase == Connected)
    && (s.phase == WebsheetRequired ==> s.websheet.Some?)
  }

  // ----- the critical sections, as functions -----

  predicate Registered(ss: Sessions, modem: string, id: nat) {
    modem in ss && ss[modem].id == id
  }

  function NewSession(id: nat, profile: string): Session {
    Session(id, Connecting, None, false, 0, None, profile, map[])
  }

  function ConnectingNow(s: Session): Session {
    s.(client := None, connected := false, connectedAt := 0, phase := Connecting)
  }

  function ConnectedNow(s: Session, client: nat, now: nat): Session {
    s.(client := Some(client), connected := true, connectedAt := now, phase := Connected, websheet := None)
  }

  /** The connection is gone, and with it every live call. */
  function DisconnectedNow(s: Session, now: nat): Session {
    s.(client := None, connected := false, connectedAt := 0, phase := Disconnected, calls := AllFailed(s.calls, now))
  }

  function MarkedConnecting(ss: Sessions, modem: string, id: nat): Sessions {
    if Registered(ss, modem, id) then ss[modem := ConnectingNow(ss[modem])] else ss
  }

  function MarkedConnected(ss: Sessions, modem: string, id: nat, client: nat, now: nat): Sessions {
    if Registered(ss, modem, id) then ss[modem := ConnectedNow(ss[modem], client, now)] else ss
  }

  function MarkedDisconnected(ss: Sessions, modem: string, id: nat, client: nat, now: nat): Sessions {
    if Registered(ss, modem, id) && ss[modem].client == Some(client)
    then ss[modem := DisconnectedNow(ss[modem], now)] else ss
  }

  function ReconnectRequested(ss: Sessions, modem: string, client: nat, now: nat): Sessions {
    if modem in ss && ss[modem].client == Some(client)
    then ss[modem := DisconnectedNow(ss[modem], now)] else ss
  }

  function WithWebsheet(ss: Sessions, modem: string, id: nat, websheet: nat): Sessions {
    if Registered(ss, modem, id)
    then ss[modem := ss[modem].(websheet := Some(websheet), phase := WebsheetRequired)] else ss
  }

  function WithoutWebsheet(ss: Sessions, modem: string, id: nat, websheet: nat): Sessions {
    if Registered(ss, modem, id) && ss[modem].websheet == Some(websheet)
    then ss[modem := ss[modem].(websheet := None, phase := Connecting)] else ss
  }

  function Detached(ss: Sessions, modem: string): Sessions {
    ss - {modem}
  }

  function DetachedById(ss: Sessions, modem: string, id: nat): Sessions {
    if Registered(ss, modem, id) then ss - {modem} else ss
  }

  // ----- the coordinator as it runs -----

  class Coordinator {
    var sessions: Sessions
    var nextSessionID: nat
    /** Websheets the broker still holds. */
    var websheets: set<nat>

    constructor ()
      ensures sessions == map[] && nextSessionID == 0 && websheets == {}
    {
      sessions, nextSessionID, websheets := map[], 0, {};
    }

    /** Does nothing while a session is registered; otherwise registers one under an id never used before. */
    method Start(modem: string, profile: string) returns (started: bool)
      modifies this`sessions, this`nextSessionID
      ensures started == (Trim(modem) != "" && modem !in old(sessions))
      ensures nextSessionID == old(nextSessionID) + (if started then 1 else 0)
      ensures sessions == if started then old(sessions)[modem := NewSession(nextSessionID, profile)] else old(sessions)
    {
      if Trim(modem) == "" || modem in sessions {
        return false;
      }
      nextSessionID := nextSessionID + 1;
      sessions := sessions[modem := Session(nextSessionID, Connecting, None, false, 0, None, profile, map[])];
      started := true;
    }

    method MarkConnected(modem: string, id: nat, client: nat, now: nat)
      modifies this`sessions
      ensures sessions == MarkedConnected(old(sessions), modem, id, client, now)
    {
      if modem in sessions && sessions[modem].id == id {
        sessions := sessions[modem := sessions[modem].(
          client := Some(client), connected := true, connectedAt := now, phase := Connected, websheet := None)];
      }
    }

    method MarkConnecting(modem: string, id: nat)
      modifies this`sessions
      ensures sessions == MarkedConnecting(old(sessions), modem, id)
    {
      if modem in sessions && sessions[modem].id == id {
        sessions := sessions[modem := sessions[modem].(
          client := None, connected := false, connectedAt := 0, phase := Connecting)];
      }
    }

    method MarkDisconnected(modem: string, id: nat, client: nat, now: nat) returns (events: seq<VoiceCall>)
      modifies this`sessions
      ensures sessions == MarkedDisconnected(old(sessions), modem, id, client, now)
      ensures var ss := old(sessions);
        if Registered(ss, modem, id) && ss[modem].client == Some(client)
          then AreLost(ss[modem].calls, now, {}, events) else events == []
    {
      events := [];
      if modem !in sessions || sessions[modem].id != id || sessions[modem].client != Some(client) {
        return;
      }
      var calls;
      calls, events := DisconnectedCallEvents(sessions[modem].calls, now);
      sessions := sessions[modem := sessions[modem].(
        client := None, connected := false, connectedAt := 0, phase := Disconnected, calls := calls)];
    }

    /** Fenced by the client: only the session that still has it is touched. */
    method RequestReconnect(modem: string, client: nat, now: nat) returns (events: seq<VoiceCall>, signalled: bool)
      modifies this`sessions
      ensures sessions == ReconnectRequested(old(sessions), modem, client, now)
      ensures signalled == (modem in old(sessions) && old(sessions)[modem].client == Some(client))
      ensures if signalled then AreLost(old(sessions)[modem].calls, now, {}, events) else events == []
    {
      events := [];
      if modem !in sessions || sessions[modem].client != Some(client) {
        return events, false;
      }
      var calls;
      calls, events := DisconnectedCallEvents(sessions[modem].calls, now);
      sessions := sessions[modem := sessions[modem].(
        client := None, connected := false, connectedAt := 0, phase := Disconnected, calls := calls)];
      signalled := true;
    }

    /** A websheet that finds its session gone is deleted again. */
    method AttachWebsheet(modem: string, id: nat, websheet: nat)
      modifies this`sessions, this`websheets
      ensures sessions == WithWebsheet(old(sessions), modem, id, websheet)
      ensures websheets == if Registered(old(sessions), modem, id) then old(websheets) else old(websheets) - {websheet}
    {
      var attached := SetWebsheet(modem, id, websheet);
      if !attached {
        websheets := websheets - {websheet};
      }
    }

    method SetWebsheet(modem: string, id: nat, websheet: nat) returns (ok: bool)
      modifies this`sessions
      ensures sessions == WithWebsheet(old(sessions), modem, id, websheet) && ok == Registered(old(sessions), modem, id)
    {
      ok := modem in sessions && sessions[modem].id == id;
      if ok {
        sessions := sessions[modem := sessions[modem].(websheet := Some(websheet), phase := WebsheetRequired)];
      }
    }

    method ClearWebsheet(modem: string, id: nat, websheet: nat)
      modifies this`sessions, this`websheets
      ensures sessions == WithoutWebsheet(old(sessions), modem, id, websheet) &&
        websheets == old(websheets) - {websheet}
    {
      if modem in sessions && sessions[modem].id == id && sessions[modem].websheet == Some(websheet) {
        sessions := sessions[modem := sessions[modem].(websheet := None, phase := Connecting)];
      }
      websheets := websheets - {websheet};
    }

    method DetachSession(modem: string, now: nat) returns (session: Option<Session>, events: seq<VoiceCall>)
      modifies this`sessions
      ensures sessions == Detached(old(sessions), modem)
      ensures session == if modem in old(sessions)
        then Some(old(sessions)[modem].(calls := AllFailed(old(sessions)[modem].calls, now))) else None
      ensures if modem in old(sessions) then AreLost(old(sessions)[modem].calls, now, {}, events) else events == []
    {
      session, events := None, [];
      if modem in sessions {
        var calls;
        calls, events := DisconnectedCallEvents(sessions[modem].calls, now);
        session := Some(sessions[modem].(calls := calls));
      }
      sessions := sessions - {modem};
    }

    method DetachSessionByID(modem: string, id: nat, now: nat)
      returns (session: Option<Session>, events: seq<VoiceCall>)
      modifies this`sessions
      ensures sessions == DetachedById(old(sessions), modem, id)
      ensures session.Some? <==> Registered(old(sessions), modem, id)
      ensures if session.Some? then AreLost(old(sessions)[modem].calls, now, {}, events) else events == []
    {
      if modem !in sessions || sessions[modem].id != id {
        return None, [];
      }
      session, events := DetachSession(modem, now);
    }
  }

  // ----- the status the user sees -----

  datatype Status =
    | Idle
    | StatusConnecting
    | StatusConnected(seconds: nat)
    | StatusWebsheet(websheet: Option<nat>)
    | StatusDisconnected

  function StatusFrom(enabled: bool, session: Option<Session>, profile: string, now: nat): Status {
    if session.None? || session.value.profile != profile then (if enabled then StatusDisconnected else Idle)
    else
      var s := session.value;
      match s.phase
      case Connected =>
        if s.client.None? then StatusDisconnected
        else StatusConnected(if s.connectedAt != 0 && now > s.connectedAt then now - s.connectedAt else 0)
      case WebsheetRequired => StatusWebsheet(s.websheet)
      case Disconnected => StatusDisconnected
      case Connecting => StatusConnecting
  }

  /**
   Of a coherent session of the profile, the status says connected exactly when
   it is, and since when, and a required websheet is shown; of no session, or
   one of another profile, only whether it is wanted.
   */
  lemma StatusIsHonest(enabled: bool, s: Session, profile: string, now: nat)
    requires Coherent(s)
    ensures StatusFrom(enabled, None, profile, now) == if enabled then StatusDisconnected else Idle
    ensures var status := StatusFrom(enabled, Some(s), profile, now);
      if s.profile != profile then status == if enabled then StatusDisconnected else Idle
      else
        && (status.StatusConnected? <==> s.connected)
        && (s.connected && 0 < s.connectedAt <= now ==> s.connectedAt + status.seconds == now)
        && (status.StatusWebsheet? <==> s.phase == WebsheetRequired)
        && (status.StatusWebsheet? ==> status.websheet.Some? && status.websheet == s.websheet)
        && (status.StatusDisconnected? <==> s.phase == Disconnected)
        && (status.StatusConnecting? <==> s.phase == Connecting)
  {
  }
}
