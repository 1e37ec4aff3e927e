/**
 Voice calls in memory: how a transition advances a call, and what a lost
 connection does to all of them. Time 0 is unset.
 */
module VoiceCalls {

  const ENDED := "ended"
  const FAILED := "failed"
  const ACTIVE := "active"
  const CONFIRMED := "confirmed"
  const LOST := "wifi calling disconnected"

  datatype VoiceCall = VoiceCall(id: string, state: string, hold: string, reason: string,
                                 answeredAt: nat, endedAt: nat, updatedAt: nat)

  /** reason is set only if reasonSet; an unset time means now. */
  datatype Transition = Transition(state: string, hold: string, reason: string, reasonSet: bool,
                                   answered: bool, ended: bool, at: nat)

  predicate Terminal(state: string) {
    state == ENDED || state == FAILED
  }

  predicate Answered(state: string) {
    state == ACTIVE || state == CONFIRMED
  }

  function Advanced(info: VoiceCall, t: Transition, now: nat): (VoiceCall, bool) {
    if info.id == "" || Terminal(info.state) then (info, false) else
      var at := if t.at == 0 then now else t.at;
      var state := if t.state != "" then t.state else info.state;
      var next := info.(
        state := state,
        hold := if t.hold != "" then t.hold else info.hold,
        reason := if t.reasonSet then t.reason else info.reason,
        updatedAt := at,
        answeredAt := if (t.answered || Answered(state)) && info.answeredAt == 0 then at else info.answeredAt,
        endedAt := if t.ended || Terminal(state) then at else info.endedAt);
      (next, next != info)
  }

  function Failed(info: VoiceCall, reason: string, at: nat, now: nat): VoiceCall {
    Advanced(info, Transition(FAILED, "", reason, true, false, false, at), now).0
  }

  function AdvancedBy(info: VoiceCall, ts: seq<(Transition, nat)>): VoiceCall
    decreases |ts|
  {
    if ts == [] then info else
      var n := |ts| - 1;
      Advanced(AdvancedBy(info, ts[..n]), ts[n].0, ts[n].1).0
  }

  /** Through any transitions: a terminal call never changes again, and an answered time, once set, stays. */
  lemma {:induction false} CallHistory(info: VoiceCall, ts: seq<(Transition, nat)>, k: nat)
    requires k <= |ts|
    ensures var early, late := AdvancedBy(info, ts[..k]), AdvancedBy(info, ts);
      && late.id == info.id
      && (Terminal(early.state) ==> late == early)
      && (early.answeredAt != 0 ==> late.answeredAt == early.answeredAt)
    decreases |ts|
  {
    if k == |ts| {
      assert ts[..k] == ts;
      if ts != [] {
        assert ts[..|ts| - 1][..0] == [];
        CallHistory(info, ts[..|ts| - 1], 0);
      }
    } else {
      assert ts[..|ts| - 1][..k] == ts[..k];
      CallHistory(info, ts[..|ts| - 1], k);
    }
  }

  /** A call that becomes answered or terminal at a set time has the time recorded. */
  lemma TimesRecorded(info: VoiceCall, t: Transition, now: nat)
    requires info.id != "" && !Terminal(info.state) && now > 0
    ensures var next := Advanced(info, t, now).0;
      && next.updatedAt == (if t.at != 0 then t.at else now) && next.updatedAt != 0
      && (next.state in {"active", "confirmed"} || t.answered ==>
            next.answeredAt == if info.answeredAt != 0 then info.answeredAt else next.updatedAt)
      && (next.state in {"ended", "failed"} || t.ended ==> next.endedAt == next.updatedAt)
      && next.reason == if t.reasonSet then t.reason else info.reason
  {
  }

  /** The last of the states, holds or reasons that were given, and the first one if none was. */
  function LastGiven(first: string, given: seq<string>): string
    decreases |given|
  {
    if given == [] then first
    else if given[|given| - 1] != "" then given[|given| - 1]
    else LastGiven(first, given[..|given| - 1])
  }

  function States(ts: seq<(Transition, nat)>): seq<string> {
    seq(|ts|, i requires 0 <= i < |ts| => ts[i].0.state)
  }

  function Holds(ts: seq<(Transition, nat)>): seq<string> {
    seq(|ts|, i requires 0 <= i < |ts| => ts[i].0.hold)
  }

  /** The time of the last transition, its own or that of the moment. */
  function LastTime(first: nat, ts: seq<(Transition, nat)>): nat {
    if ts == [] then first else
      var (t, now) := ts[|ts| - 1];
      if t.at != 0 then t.at else now
  }

  /** A call that goes on has the last state and hold that were given, and the time of the last transition. */
  lemma {:induction false} LastTransitionTells(info: VoiceCall, ts: seq<(Transition, nat)>)
    requires info.id != "" && forall k :: 0 <= k < |ts| ==> !Terminal(AdvancedBy(info, ts[..k]).state)
    ensures var late := AdvancedBy(info, ts);
      && late.state == LastGiven(info.state, States(ts)) && late.hold == LastGiven(info.hold, Holds(ts))
      && late.updatedAt == LastTime(info.updatedAt, ts)
      && (Terminal(late.state) && ts != [] ==> late.endedAt == late.updatedAt)
    decreases |ts|
  {
    if ts != [] {
      var front := ts[..|ts| - 1];
      forall k | 0 <= k < |front| ensures !Terminal(AdvancedBy(info, front[..k]).state) {
        assert front[..k] == ts[..k];
      }
      LastTransitionTells(info, front);
      CallHistory(info, front, 0);
      assert States(ts)[..|front|] == States(front) && Holds(ts)[..|front|] == Holds(front);
      assert !Terminal(AdvancedBy(info, ts[..|front|]).state);
    }
  }

  predicate Live(call: VoiceCall) {
    call.id != "" && !Terminal(call.state)
  }

  /** Every live call has failed; the others are as they were. */
  function AllFailed(calls: map<string, VoiceCall>, now: nat): map<string, VoiceCall> {
    map k | k in calls :: if Live(calls[k]) then Failed(calls[k], LOST, now, now) else calls[k]
  }

  /** The call has failed for the reason and at the time; its hold and a time it was answered are as before. */
  predicate HasFailed(call: VoiceCall, reason: string, now: nat, failed: VoiceCall) {
    && failed.id == call.id && failed.state == "failed" && failed.reason == reason
    && failed.endedAt == failed.updatedAt == now
    && failed.hold == call.hold && failed.answeredAt == call.answeredAt
  }

  lemma NoneLive(calls: map<string, VoiceCall>, now: nat)
    ensures forall k :: k in calls ==> !Live(AllFailed(calls, now)[k])
    ensures forall k :: k in calls && !Live(calls[k]) ==> AllFailed(calls, now)[k] == calls[k]
    ensures forall k :: k in calls && Live(calls[k]) && now > 0 ==>
      HasFailed(calls[k], "wifi calling disconnected", now, AllFailed(calls, now)[k])
  {
  }

  /** e is a live call outside left as it is after the loss. */
  ghost predicate IsLost(calls: map<string, VoiceCall>, now: nat, left: set<string>, e: VoiceCall) {
    exists k :: k in LiveKeys(calls, left) && e == AllFailed(calls, now)[k]
  }

  /** The events are the live calls outside left, failed, each once. */
  ghost predicate AreLost(calls: map<string, VoiceCall>, now: nat, left: set<string>, events: seq<VoiceCall>) {
    && (forall e :: e in events <==> IsLost(calls, now, left, e))
    && |events| == |LiveKeys(calls, left)|
  }

  function LiveKeys(calls: map<string, VoiceCall>, left: set<string>): (keys: set<string>)
    ensures keys <= calls.Keys
  {
    set k | k in calls && k !in left && Live(calls[k])
  }

  /** Fails the live calls and returns them as events. */
  method DisconnectedCallEvents(calls: map<string, VoiceCall>, now: nat)
    returns (next: map<string, VoiceCall>, events: seq<VoiceCall>)
    ensures next == AllFailed(calls, now) && AreLost(calls, now, {}, events)
  {
    next, events := calls, [];
    var left := calls.Keys;
    assert LiveKeys(calls, left) == {};
    while left != {}
      invariant left <= calls.Keys && next.Keys == calls.Keys
      invariant forall k :: k in calls ==> next[k] == if k in left then calls[k] else AllFailed(calls, now)[k]
      invariant AreLost(calls, now, left, events)
    {
      var k :| k in left;
      ghost var before := events;
      if Live(next[k]) {
        var failed := Failed(next[k], LOST, now, now);
        next := next[k := failed];
        events := events + [failed];
      }
      OneMoreLost(calls, now, left, k, before, events);
      left := left - {k};
    }
  }

  lemma OneMoreLost(calls: map<string, VoiceCall>, now: nat, left: set<string>, k: string, before: seq<VoiceCall>,
                    events: seq<VoiceCall>)
    requires k in left && k in calls && AreLost(calls, now, left, before)
    requires events == if Live(calls[k]) then before + [AllFailed(calls, now)[k]] else before
    ensures AreLost(calls, now, left - {k}, events)
  {
    var keys, next := LiveKeys(calls, left), LiveKeys(calls, left - {k});
    assert next == keys + if Live(calls[k]) then {k} else {};
    forall e ensures e in events <==> IsLost(calls, now, left - {k}, e) {
      if IsLost(calls, now, left, e) {
        var j :| j in keys && e == AllFailed(calls, now)[j];
        assert j in next;
      }
    }
  }
}
