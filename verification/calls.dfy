/**
 The stored call records: upserts that keep an answered time and, all but one,
 refuse to revive a call that is over, and the events published about them.
 Time 0 is unset.
 */
module CallRecords {
  import opened Text
  import VoiceCalls

  datatype Call = Call(id: string, profile: string, modem: string, route: string, direction: string, number: string,
                       state: string, hold: string, reason: string,
                       startedAt: nat, answeredAt: nat, endedAt: nat, updatedAt: nat)

  datatype StoreError = Invalid | NotFound | Database

  datatype Result<+T> = Ok(value: T) | Err(error: StoreError)

  type Rows = map<string, Call>

  const MEDIA_UNAVAILABLE := "call media is not available"

  predicate Over(call: Call) {
    VoiceCalls.Terminal(call.state)
  }

  function Normalized(call: Call, now: nat): Call {
    var hold := Trim(call.hold);
    var startedAt := if call.startedAt == 0 then now else call.startedAt;
    Call(Trim(call.id), Trim(call.profile), Trim(call.modem), Trim(call.route), Trim(call.direction), Trim(call.number),
         Trim(call.state), if hold == "" then "none" else hold, Trim(call.reason),
         startedAt, call.answeredAt, call.endedAt, if call.updatedAt == 0 then startedAt else call.updatedAt)
  }

  predicate Complete(call: Call) {
    && call.id != "" && call.profile != "" && call.modem != ""
    && call.route != "" && call.direction != "" && call.state != ""
  }

  /** An unset answered time keeps the stored one. */
  function Merged(rows: Rows, call: Call): Call {
    if call.id in rows && call.answeredAt == 0 then call.(answeredAt := rows[call.id].answeredAt) else call
  }

  function Upserted(rows: Rows, call: Call): Rows {
    rows[call.id := Merged(rows, call)]
  }

  predicate Revives(rows: Rows, call: Call) {
    call.id in rows && Over(rows[call.id]) && !Over(call)
  }

  /** A write that is accepted but must not touch the row. */
  predicate Refused(rows: Rows, call: Call, now: nat, fault: bool) {
    Complete(Normalized(call, now)) && !fault && Revives(rows, Normalized(call, now))
  }

  predicate Deletes(rows: Rows, profile: string, modem: string, id: string) {
    id in rows && rows[id].profile == profile && rows[id].modem == modem
  }

  // ----- the store and its writers -----

  /**
   A fault is an error of the database: the statement has no effect. others
   are what other writers do between a refused write and reading the row back.
   */
  class Records {
    var rows: Rows
    var events: seq<Call>

    constructor ()
      ensures rows == map[] && events == []
    {
      rows, events := map[], [];
    }

    function Now(): State
      reads this
    {
      State(rows, events)
    }

    method Interleave(others: seq<Step>)
      modifies this
      ensures Now() == Ran(old(Now()), others)
    {
      var s := Ran(Now(), others);
      rows, events := s.rows, s.events;
    }

    method SaveCall(call: Call, now: nat, fault: bool) returns (r: Result<()>)
      modifies this`rows
      ensures r.Ok? <==> Complete(Normalized(call, now)) && !fault
      ensures rows == if r.Ok? then Upserted(old(rows), Normalized(call, now)) else old(rows)
    {
      var c := Normalized(call, now);
      if !Complete(c) {
        return Err(Invalid);
      }
      if fault {
        return Err(Database);
      }
      if c.id in rows && c.answeredAt == 0 {
        rows := rows[c.id := c.(answeredAt := rows[c.id].answeredAt)];
      } else {
        rows := rows[c.id := c];
      }
      r := Ok(());
    }

    /** Returns the row, read back if it was not written, and whether it was. */
    method SaveCallPreservingTerminal(call: Call, now: nat, fault: bool, others: seq<Step>, readFault: bool)
      returns (r: Result<(Call, bool)>)
      modifies this
      ensures var s, c := old(Now()), Normalized(call, now);
        if Refused(s.rows, call, now, fault) then
          && Now() == Ran(s, others)
          && r == if readFault then Err(Database) else if c.id in rows then Ok((rows[c.id], false)) else Err(NotFound)
        else if Complete(c) && !fault then
          events == s.events && rows == Upserted(s.rows, c) && r == Ok((rows[c.id], true))
        else Now() == s && r == Err(if Complete(c) then Database else Invalid)
    {
      var c := Normalized(call, now);
      if !Complete(c) {
        return Err(Invalid);
      }
      if fault {
        return Err(Database);
      }
      if c.id !in rows {
        rows := rows[c.id := c];
      } else if VoiceCalls.Terminal(rows[c.id].state) && !VoiceCalls.Terminal(c.state) {
        Interleave(others);
        r := if readFault then Err(Database) else if c.id in rows then Ok((rows[c.id], false)) else Err(NotFound);
        return;
      } else if c.answeredAt == 0 {
        rows := rows[c.id := c.(answeredAt := rows[c.id].answeredAt)];
      } else {
        rows := rows[c.id := c];
      }
      r := Ok((rows[c.id], true));
    }

    method DeleteCall(profileID: string, modemID: string, callID: string, fault: bool) returns (r: Result<()>)
      modifies this`rows
      ensures var profile, modem, id := Trim(profileID), Trim(modemID), Trim(callID);
        var found := profile != "" && modem != "" && id != "" && Deletes(old(rows), profile, modem, id);
        && (r.Ok? <==> found && !fault)
        && rows == if r.Ok? then old(rows) - {id} else old(rows)
    {
      var profile, modem, id := Trim(profileID), Trim(modemID), Trim(callID);
      if profile == "" || modem == "" || id == "" {
        return Err(NotFound);
      }
      if fault {
        return Err(Database);
      }
      if id !in rows || rows[id].profile != profile || rows[id].modem != modem {
        return Err(NotFound);
      }
      rows := rows - {id};
      r := Ok(());
    }

    /** Publishes the row exactly when it was written. */
    method SaveAndPublish(call: Call, now: nat, fault: bool, others: seq<Step>, readFault: bool)
      returns (r: Result<Call>)
      modifies this
      ensures var s, c := old(Now()), Normalized(call, now);
        var refused := Refused(s.rows, call, now, fault);
        && Now() == (if refused then Ran(s, others) else Saved(s, call, now, fault))
        && (r.Ok? <==> Complete(c) && !fault && (refused ==> !readFault && c.id in rows))
        && (r.Ok? ==> c.id in rows && r.value == rows[c.id])
      ensures if HasAll(call) && !fault && Contradicts(old(rows), call) then Now() == Ran(old(Now()), others)
        else SavesAndTells(old(Now()), call, now, fault, Now())
    {
      SavedIsTold(Now(), call, now, fault);
      RowIsWritten(rows, call, now);
      var saved := SaveCallPreservingTerminal(call, now, fault, others, readFault);
      if saved.Err? {
        return Err(saved.error);
      }
      if saved.value.1 {
        events := events + [saved.value.0];
      }
      r := Ok(saved.value.0);
    }

    /** Only a call that was over when it was looked up is deleted. */
    method DeleteRecord(call: Call, fault: bool) returns (ok: bool)
      modifies this`rows
      ensures rows == Deleted(old(rows), call, fault)
      ensures ok ==> Over(call) && Trim(call.id) in old(rows) && Trim(call.id) !in rows
    {
      if !VoiceCalls.Terminal(call.state) {
        return false;
      }
      var r := DeleteCall(call.profile, call.modem, call.id, fault);
      ok := r.Ok?;
    }

    /** call is what was looked up before the media turned out to be gone; the row may have changed since. */
    method EndUnavailable(call: Call, now: nat, fault: bool)
      modifies this
      ensures Now() == Ended(old(Now()), call, now, fault)
    {
      if VoiceCalls.Terminal(call.state) {
        return;
      }
      var ended := call.(state := VoiceCalls.ENDED, reason := MEDIA_UNAVAILABLE, endedAt := now, updatedAt := now);
      var r := SaveCall(ended, now, fault);
      if r.Err? {
        return;
      }
      events := events + [ended];
    }

    /** A call whose record cannot be saved, or not be read back after a refusal, is published all the same. */
    method VoiceEvent(call: Call, now: nat, fault: bool, others: seq<Step>, readFault: bool)
      modifies this
      ensures var s := old(Now());
        Now() == if call.id != "" && Refused(s.rows, call, now, fault)
                 then ReadBackAfter(Ran(Heard(s, call, now, fault), others), call, readFault)
                 else Heard(s, call, now, fault)
    {
      if call.id == "" {
        return;
      }
      var r := SaveAndPublish(call, now, fault, others, readFault);
      if r.Err? {
        events := events + [call];
      }
    }
  }

  // ----- the writers as steps -----

  datatype State = State(rows: Rows, events: seq<Call>)

  function Saved(s: State, call: Call, now: nat, fault: bool): State {
    var c := Normalized(call, now);
    if !Complete(c) || fault || Revives(s.rows, c) then s
    else State(Upserted(s.rows, c), s.events + [Merged(s.rows, c)])
  }

  function Deleted(rows: Rows, call: Call, fault: bool): Rows {
    var profile, modem, id := Trim(call.profile), Trim(call.modem), Trim(call.id);
    if Over(call) && !fault && profile != "" && modem != "" && id != "" && Deletes(rows, profile, modem, id)
    then rows - {id} else rows
  }

  function Ended(s: State, call: Call, now: nat, fault: bool): State {
    var ended := call.(state := VoiceCalls.ENDED, reason := MEDIA_UNAVAILABLE, endedAt := now, updatedAt := now);
    if Over(call) || fault || !Complete(Normalized(ended, now)) then s
    else State(Upserted(s.rows, Normalized(ended, now)), s.events + [ended])
  }

  function Heard(s: State, call: Call, now: nat, fault: bool): State {
    if call.id == "" then s
    else if fault || !Complete(Normalized(call, now)) then s.(events := s.events + [call])
    else Saved(s, call, now, fault)
  }

  /** A refused voice event reads the row back, and is published if that fails. */
  function ReadBackAfter(s: State, call: Call, fault: bool): State {
    if fault || Trim(call.id) !in s.rows then s.(events := s.events + [call]) else s
  }

  /** A refused voice event is two steps, with anything in between. */
  datatype Step =
    | Save(call: Call, now: nat, fault: bool)
    | Delete(call: Call, fault: bool)
    | End(call: Call, now: nat, fault: bool)
    | Voice(call: Call, now: nat, fault: bool)
    | ReadBack(call: Call, fault: bool)

  function After(s: State, step: Step): State {
    match step
    case Save(call, now, fault) => Saved(s, call, now, fault)
    case Delete(call, fault) => s.(rows := Deleted(s.rows, call, fault))
    case End(call, now, fault) => Ended(s, call, now, fault)
    case Voice(call, now, fault) => Heard(s, call, now, fault)
    case ReadBack(call, fault) => ReadBackAfter(s, call, fault)
  }

  function Ran(s: State, steps: seq<Step>): State
    decreases |steps|
  {
    if steps == [] then s else After(Ran(s, steps[..|steps| - 1]), steps[|steps| - 1])
  }

  // ----- what one writer does, in the rows and events alone -----

  predicate IsOver(state: string) {
    state == "ended" || state == "failed"
  }

  /** The row is the call, trimmed and with its times; an unset answered time is the stored one. */
  ghost predicate IsRowOf(rows: Rows, call: Call, now: nat, row: Call) {
    var id := Trim(call.id);
    && row.id == id && row.profile == Trim(call.profile) && row.modem == Trim(call.modem)
    && row.route == Trim(call.route) && row.direction == Trim(call.direction) && row.number == Trim(call.number)
    && row.state == Trim(call.state) && row.reason == Trim(call.reason)
    && row.hold == (if Trim(call.hold) != "" then Trim(call.hold) else "none")
    && row.startedAt == (if call.startedAt != 0 then call.startedAt else now)
    && row.updatedAt == (if call.updatedAt != 0 then call.updatedAt else row.startedAt)
    && row.endedAt == call.endedAt
    && row.answeredAt == if call.answeredAt != 0 || id !in rows then call.answeredAt else rows[id].answeredAt
  }

  /** The call's row is written, and no other. */
  ghost predicate Writes(rows: Rows, call: Call, now: nat, after: Rows) {
    var id := Trim(call.id);
    && after.Keys == rows.Keys + {id} && IsRowOf(rows, call, now, after[id])
    && forall other :: other in rows && other != id ==> after[other] == rows[other]
  }

  /** Nothing that a row needs is missing. */
  predicate HasAll(call: Call) {
    && Trim(call.id) != "" && Trim(call.profile) != "" && Trim(call.modem) != ""
    && Trim(call.route) != "" && Trim(call.direction) != "" && Trim(call.state) != ""
  }

  /** The record says that the call is over, and the call that it goes on. */
  predicate Contradicts(rows: Rows, call: Call) {
    var id := Trim(call.id);
    id in rows && IsOver(rows[id].state) && !IsOver(Trim(call.state))
  }

  lemma RowIsWritten(rows: Rows, call: Call, now: nat)
    ensures Writes(rows, call, now, Upserted(rows, Normalized(call, now)))
    ensures Complete(Normalized(call, now)) <==> HasAll(call)
    ensures Revives(rows, Normalized(call, now)) <==> Contradicts(rows, call)
  {
  }

  /** The call has been written and its row published, once and as it now stands; or nothing has happened. */
  ghost predicate SavesAndTells(s: State, call: Call, now: nat, fault: bool, u: State) {
    if HasAll(call) && !fault && !Contradicts(s.rows, call) then
      Writes(s.rows, call, now, u.rows) && u.events == s.events + [u.rows[Trim(call.id)]]
    else u == s
  }

  lemma SavedIsTold(s: State, call: Call, now: nat, fault: bool)
    ensures SavesAndTells(s, call, now, fault, Saved(s, call, now, fault))
  {
    RowIsWritten(s.rows, call, now);
  }

  /** A voice event is saved and told; published as it came if it could not be saved; held back if it contradicts. */
  lemma VoiceIsTold(s: State, call: Call, now: nat, fault: bool)
    ensures call.id == "" ==> Heard(s, call, now, fault) == s
    ensures call.id != "" && (fault || !HasAll(call)) ==>
      Heard(s, call, now, fault) == State(s.rows, s.events + [call])
    ensures call.id != "" && !fault && HasAll(call) ==> SavesAndTells(s, call, now, fault, Heard(s, call, now, fault))
    ensures ReadBackAfter(s, call, fault) ==
      State(s.rows, s.events + if fault || Trim(call.id) !in s.rows then [call] else [])
  {
    RowIsWritten(s.rows, call, now);
    assert s.events + [] == s.events;
  }

  /**
   A call without media ends: it is written as ended now, and published as it
   was written, but not as it was stored.
   */
  lemma EndIsTold(s: State, call: Call, now: nat, fault: bool)
    ensures var ended := call.(state := "ended", reason := "call media is not available", endedAt := now,
                               updatedAt := now);
      var u := Ended(s, call, now, fault);
      if IsOver(call.state) || fault || !HasAll(ended) then u == s
      else Writes(s.rows, ended, now, u.rows) && u.events == s.events + [ended]
  {
    var ended := call.(state := "ended", reason := "call media is not available", endedAt := now, updatedAt := now);
    RowIsWritten(s.rows, ended, now);
  }

  /** Deleted is exactly the row with these trimmed ids, and only of a call that is over. */
  lemma DeletedRow(rows: Rows, call: Call, fault: bool)
    ensures var id := Trim(call.id);
      var gone := IsOver(call.state) && !fault && id != "" && Trim(call.profile) != "" && Trim(call.modem) != ""
        && id in rows && rows[id].profile == Trim(call.profile) && rows[id].modem == Trim(call.modem);
      Deleted(rows, call, fault) == if gone then rows - {id} else rows
  {
  }

  /** The last event about the call with this id. */
  function LastNews(events: seq<Call>, id: string): seq<Call>
    decreases |events|
  {
    if events == [] then [] else
      var last := events[|events| - 1];
      if Trim(last.id) == id then [last] else LastNews(events[..|events| - 1], id)
  }

  /** The news is the row, or tells the same end. */
  ghost predicate Tells(news: Call, row: Call) {
    news == row ||
      (news.state == row.state == "ended" && news.reason == row.reason == "call media is not available" &&
       news.endedAt == row.endedAt)
  }

  /** If there is a record, the last event about it tells it. */
  ghost predicate IsTold(s: State, id: string) {
    id in s.rows ==> LastNews(s.events, id) != [] && Tells(LastNews(s.events, id)[0], s.rows[id])
  }

  /** A voice event about the call that is published although it could not be saved, or not be read back. */
  predicate IsUnsaved(step: Step, id: string) {
    && Trim(step.call.id) == id
    && match step
       case Voice(call, now, fault) => fault || !HasAll(call)
       case ReadBack(_, fault) => fault
       case _ => false
  }

  lemma NewsFirst(events: seq<Call>, e: Call, id: string)
    ensures LastNews(events + [e], id) == if Trim(e.id) == id then [e] else LastNews(events, id)
  {
    assert (events + [e])[..|events|] == events;
  }

  /** Right after a call was saved, the last event about it is its row. */
  lemma SavedIsNews(s: State, call: Call, now: nat, fault: bool)
    requires HasAll(call) && !fault && !Contradicts(s.rows, call)
    ensures var u, id := Saved(s, call, now, fault), Trim(call.id);
      id in u.rows && LastNews(u.events, id) == [u.rows[id]]
  {
    SavedIsTold(s, call, now, fault);
    TrimmedIsBare(call.id);
    NewsFirst(s.events, Saved(s, call, now, fault).rows[Trim(call.id)], Trim(call.id));
  }

  lemma SavedStaysTold(s: State, call: Call, now: nat, fault: bool, id: string)
    requires IsTold(s, id)
    ensures IsTold(Saved(s, call, now, fault), id)
  {
    var u := Saved(s, call, now, fault);
    SavedIsTold(s, call, now, fault);
    if u != s {
      TrimmedIsBare(call.id);
      NewsFirst(s.events, u.rows[Trim(call.id)], id);
    }
  }

  lemma EndedStaysTold(s: State, call: Call, now: nat, fault: bool, id: string)
    requires IsTold(s, id)
    ensures IsTold(Ended(s, call, now, fault), id)
  {
    var ended := call.(state := "ended", reason := "call media is not available", endedAt := now, updatedAt := now);
    EndIsTold(s, call, now, fault);
    assert Trim("ended") == "ended" && Trim("call media is not available") == "call media is not available";
    NewsFirst(s.events, ended, id);
  }

  lemma VoiceStaysTold(s: State, step: Step, id: string)
    requires IsTold(s, id) && (step.Voice? || step.ReadBack?) && !IsUnsaved(step, id)
    ensures IsTold(After(s, step), id)
  {
    NewsFirst(s.events, step.call, id);
    if step.Voice? {
      RowIsWritten(s.rows, step.call, step.now);
      SavedStaysTold(s, step.call, step.now, step.fault, id);
    }
  }

  /**
   Over any order of the writers: as long as no voice event about a call is
   published unsaved, the last event about the call tells its record.
   */
  lemma {:induction false} LastNewsTells(steps: seq<Step>, id: string)
    requires forall i :: 0 <= i < |steps| ==> !IsUnsaved(steps[i], id)
    ensures IsTold(Ran(State(map[], []), steps), id)
    decreases |steps|
  {
    if steps != [] {
      var s, last := Ran(State(map[], []), steps[..|steps| - 1]), steps[|steps| - 1];
      LastNewsTells(steps[..|steps| - 1], id);
      match last
      case Save(call, now, fault) => SavedStaysTold(s, call, now, fault, id);
      case End(call, now, fault) => EndedStaysTold(s, call, now, fault, id);
      case Delete(call, fault) => DeletedRow(s.rows, call, fault);
      case _ => VoiceStaysTold(s, last, id);
    }
  }

  // ----- over any run -----

  /** No step of the run deletes the row. */
  predicate Keeps(steps: seq<Step>, id: string) {
    forall i :: 0 <= i < |steps| && steps[i].Delete? ==> Trim(steps[i].call.id) != id
  }

  /** late has everything of early that must never be lost. */
  predicate Follows(early: Call, late: Call) {
    && (Over(early) ==> Over(late))
    && (early.answeredAt != 0 ==> late.answeredAt != 0)
  }

  lemma EndedIsOver()
    ensures Trim(VoiceCalls.ENDED) == VoiceCalls.ENDED
  {
  }

  lemma StepFollows(s: State, step: Step, id: string)
    requires id in s.rows && (step.Delete? ==> Trim(step.call.id) != id)
    ensures id in After(s, step).rows && Follows(s.rows[id], After(s, step).rows[id])
  {
    EndedIsOver();
  }

  /**
   Over any order of dial results, user actions, late voice events and media
   failures, each based on whatever was looked up earlier: until the row is
   deleted, a call that is over stays over and an answered time stays set.
   */
  lemma {:induction false} RecordHistory(s: State, steps: seq<Step>, id: string)
    requires id in s.rows && Keeps(steps, id)
    ensures id in Ran(s, steps).rows && Follows(s.rows[id], Ran(s, steps).rows[id])
    decreases |steps|
  {
    if steps != [] {
      var front, last := steps[..|steps| - 1], steps[|steps| - 1];
      RecordHistory(s, front, id);
      StepFollows(Ran(s, front), last, id);
    }
  }

  /** A voice event whose record cannot be saved, or not be read back, says that this call goes on. */
  predicate Misreports(step: Step, id: string) {
    && step.call.id == id != "" && !Over(step.call)
    && match step
       case Voice(call, now, fault) => fault || !Complete(Normalized(call, now))
       case ReadBack(_, fault) => fault
       case _ => false
  }

  /** No event says of this call that it goes on. */
  predicate SaysOver(events: seq<Call>, id: string) {
    forall i :: 0 <= i < |events| && events[i].id == id ==> Over(events[i])
  }

  lemma StepNews(s: State, step: Step, id: string)
    requires id in s.rows && Trim(id) == id != "" && Over(s.rows[id]) && (step.Delete? ==> Trim(step.call.id) != id)
    ensures s.events <= After(s, step).events
    ensures SaysOver(After(s, step).events[|s.events|..], id) <==> !Misreports(step, id)
  {
    EndedIsOver();
    var news := After(s, step).events[|s.events|..];
    if Misreports(step, id) {
      assert news[0] == step.call;
    }
  }

  predicate AnyMisreports(steps: seq<Step>, id: string) {
    exists i :: 0 <= i < |steps| && Misreports(steps[i], id)
  }

  lemma AnyAppend(front: seq<Step>, last: Step, id: string)
    ensures AnyMisreports(front + [last], id) <==> AnyMisreports(front, id) || Misreports(last, id)
  {
    var all := front + [last];
    assert all[|front|] == last;
    if AnyMisreports(front, id) {
      var i :| 0 <= i < |front| && Misreports(front[i], id);
      assert Misreports(all[i], id);
    }
  }

  lemma NewsAddsUp(a: seq<Call>, b: seq<Call>, c: seq<Call>)
    requires a <= b <= c
    ensures a <= c && c[|a|..] == b[|a|..] + c[|b|..]
  {
    assert c == b + c[|b|..];
  }

  lemma SaysOverBoth(a: seq<Call>, b: seq<Call>, id: string)
    ensures SaysOver(a + b, id) <==> SaysOver(a, id) && SaysOver(b, id)
  {
    if SaysOver(a + b, id) {
      forall i | 0 <= i < |a| && a[i].id == id ensures Over(a[i]) { assert (a + b)[i] == a[i]; }
      forall i | 0 <= i < |b| && b[i].id == id ensures Over(b[i]) { assert (a + b)[|a| + i] == b[i]; }
    }
  }

  /**
   Once a record is over, what is published about the call until it is deleted
   never says otherwise, exactly if no voice event came in that did and could
   not be saved or, once refused, not be read back: such an event is published
   as it came.
   */
  lemma {:induction false} NewsHistory(s: State, steps: seq<Step>, id: string)
    requires id in s.rows && Trim(id) == id != "" && Over(s.rows[id]) && Keeps(steps, id)
    ensures s.events <= Ran(s, steps).events
    ensures SaysOver(Ran(s, steps).events[|s.events|..], id) <==> !AnyMisreports(steps, id)
    decreases |steps|
  {
    if steps != [] {
      var front, last := steps[..|steps| - 1], steps[|steps| - 1];
      NewsHistory(s, front, id);
      RecordHistory(s, front, id);
      NewsStep(s.events, Ran(s, front), last, id);
      assert steps == front + [last];
      AnyAppend(front, last, id);
    }
  }

  lemma NewsStep(before: seq<Call>, t: State, last: Step, id: string)
    requires id in t.rows && Trim(id) == id != "" && Over(t.rows[id]) &&
      (last.Delete? ==> Trim(last.call.id) != id) && before <= t.events
    ensures before <= After(t, last).events
    ensures SaysOver(After(t, last).events[|before|..], id) <==>
      SaysOver(t.events[|before|..], id) && !Misreports(last, id)
  {
    StepNews(t, last, id);
    var u := After(t, last);
    NewsAddsUp(before, t.events, u.events);
    SaysOverBoth(t.events[|before|..], u.events[|t.events|..], id);
  }

  lemma SomeEventMisreports() returns (s: State, step: Step)
    ensures "1" in s.rows && Over(s.rows["1"]) && Misreports(step, "1")
    ensures !SaysOver(After(s, step).events[|s.events|..], "1")
  {
    var call := Call("1", "p", "m", "wifi_calling", "outgoing", "2", VoiceCalls.ENDED, "none", "", 1, 2, 3, 3);
    s := State(map["1" := call], []);
    step := Voice(call.(state := VoiceCalls.ACTIVE), 4, true);
    assert Trim("1") == "1";
    StepNews(s, step, "1");
  }

  // ----- what every stored row is like -----

  /** Complete, trimmed, with a hold state and its times: normalizing it changes nothing. */
  ghost predicate Settled(c: Call) {
    && Complete(c) && c.hold != "" && c.startedAt != 0 && c.updatedAt != 0
    && forall now :: Normalized(c, now) == c
  }

  ghost predicate AllSettled(rows: Rows) {
    forall id :: id in rows ==> rows[id].id == id && Settled(rows[id])
  }

  lemma NormalizedSettles(call: Call, now: nat)
    requires now > 0 && Complete(Normalized(call, now))
    ensures Settled(Normalized(call, now))
  {
    TrimmedIsBare(call.id);
    TrimmedIsBare(call.profile);
    TrimmedIsBare(call.modem);
    TrimmedIsBare(call.route);
    TrimmedIsBare(call.direction);
    TrimmedIsBare(call.number);
    TrimmedIsBare(call.state);
    TrimmedIsBare(call.hold);
    TrimmedIsBare(call.reason);
    assert Trim("none") == "none";
  }

  /** Whatever sets times has one. */
  predicate Timed(step: Step) {
    step.Delete? || step.ReadBack? || step.now > 0
  }

  lemma StepSettles(s: State, step: Step)
    requires AllSettled(s.rows) && Timed(step)
    ensures AllSettled(After(s, step).rows)
  {
    if !step.Delete? && !step.ReadBack? {
      var now := step.now;
      var ended := step.call.(state := VoiceCalls.ENDED, reason := MEDIA_UNAVAILABLE, endedAt := now, updatedAt := now);
      var c := Normalized(if step.End? then ended else step.call, step.now);
      if Complete(c) {
        NormalizedSettles(if step.End? then ended else step.call, step.now);
        MergedSettles(s.rows, c);
      }
    }
  }

  lemma MergedSettles(rows: Rows, c: Call)
    requires AllSettled(rows) && Settled(c)
    ensures AllSettled(Upserted(rows, c))
  {
    var m := Merged(rows, c);
    forall now ensures Normalized(m, now) == m {
      assert Normalized(c, now) == c;
    }
  }

  /** Whatever the writers are given, every row is stored under its own id, complete and normalized. */
  lemma {:induction false} RowsAreSettled(steps: seq<Step>)
    requires forall i :: 0 <= i < |steps| ==> Timed(steps[i])
    ensures AllSettled(Ran(State(map[], []), steps).rows)
    decreases |steps|
  {
    if steps != [] {
      RowsAreSettled(steps[..|steps| - 1]);
      StepSettles(Ran(State(map[], []), steps[..|steps| - 1]), steps[|steps| - 1]);
    }
  }
}
