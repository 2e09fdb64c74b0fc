/** The session editor dialog of src/components/SessionEditModal.jsx: a
    working copy of one person's sessions that the user adds to, edits and
    deletes from, then saves back in one batch. A `datetime-local` field is
    its parsed timestamp, `None` when the field is empty or unparsable. */
module SessionEditor {
  import opened Wrappers
  import opened Sessions
  import Seqs
  import Timeline

  /** `calculateDuration`: whole seconds from `start` to `end`, never
      negative. */
  function CalculateDuration(start: int, end: int): (d: int)
    ensures d >= 0
    ensures start <= end ==> d * 1000 <= end - start < d * 1000 + 1000
    ensures end < start ==> d == 0
  {
    var e := Elapsed(start, end);
    if e < 0 then 0 else e
  }

  /** The entry standing for the open interval while the timer runs. */
  function Placeholder(p: Person, now: int): Session
    requires IsSet(p.currentSessionStart)
  {
    var start := p.currentSessionStart.value;
    Session(CurrentSession, None, None, Some(start), Some(now), Elapsed(start, now), true)
  }

  /** The working list on opening: the stored sessions in their order, then
      the placeholder exactly when the person is running with a start time. */
  function WorkingList(p: Person, now: int): (r: seq<Session>)
    requires p.sessions.Some?
    ensures var stored := p.sessions.value;
      && |r| == |stored| + (if p.isRunning && IsSet(p.currentSessionStart) then 1 else 0)
      && r[..|stored|] == stored
      && (|r| > |stored| ==> r[|stored|].isCurrent && r[|stored|].id == CurrentSession)
  {
    var stored := p.sessions.value;
    if p.isRunning && IsSet(p.currentSessionStart) then
      assert (stored + [Placeholder(p, now)])[..|stored|] == stored;
      stored + [Placeholder(p, now)]
    else stored
  }

  /** The editor's total on opening is the total the timer reports at the
      same instant, for a person whose running flag and start time agree. */
  lemma {:induction false} OpenedTotalMatches(p: Person, now: int)
    requires p.sessions.Some? && Consistent(p)
    ensures SumDurations(WorkingList(p, now)) == TotalTime(p, now)
  {
    if p.isRunning && IsSet(p.currentSessionStart) {
      SumDurationsSnoc(p.sessions.value, Placeholder(p, now));
    }
  }

  /** The sort key of the editor list: the start time, 0 when absent. */
  function EditorKey(s: Session): int
  {
    s.startTime.GetOr(0)
  }

  /** `[...prev, session].sort(...)`: the list with one more session, in start
      time order, equal start times keeping their previous order. */
  function Inserted(ss: seq<Session>, s: Session): (r: seq<Session>)
    ensures |r| == |ss| + 1
    ensures multiset(r) == multiset(ss) + multiset{s}
    ensures Seqs.SortedBy(r, EditorKey)
    ensures forall k :: Seqs.KeyClass(r, EditorKey, k) == Seqs.KeyClass(ss + [s], EditorKey, k)
  {
    Seqs.SortByCorrect(ss + [s], EditorKey);
    Seqs.SortBy(ss + [s], EditorKey)
  }

  /** Inserting by start time adds the new duration to the list's sum. */
  lemma {:induction false} InsertBySum(t: seq<Session>, x: Session)
    ensures SumDurations(Seqs.InsertBy(t, x, EditorKey)) == SumDurations(t) + x.duration
  {
    if t == [] || EditorKey(t[|t| - 1]) <= EditorKey(x) {
      SumDurationsSnoc(t, x);
    } else {
      var init, last := t[..|t| - 1], t[|t| - 1];
      assert t == init + [last];
      InsertBySum(init, x);
      SumDurationsSnoc(Seqs.InsertBy(init, x, EditorKey), last);
      SumDurationsSnoc(init, last);
    }
  }

  /** Sorting by start time keeps the sum of the durations. */
  lemma {:induction false} SortBySum(t: seq<Session>)
    ensures SumDurations(Seqs.SortBy(t, EditorKey)) == SumDurations(t)
  {
    if t != [] {
      var init, last := t[..|t| - 1], t[|t| - 1];
      assert t == init + [last];
      SortBySum(init);
      InsertBySum(Seqs.SortBy(init, EditorKey), last);
      SumDurationsSnoc(init, last);
    }
  }

  /** Adding a session to the editor adds its duration to the editor's
      total, wherever the sort places it. */
  lemma {:induction false} InsertedTotal(ss: seq<Session>, s: Session)
    ensures SumDurations(Inserted(ss, s)) == SumDurations(ss) + s.duration
  {
    SortBySum(ss + [s]);
    SumDurationsSnoc(ss, s);
  }

  /** The two time inputs of the "add session" form. */
  datatype Draft = Draft(startTime: Option<int>, endTime: Option<int>)

  const EmptyDraft := Draft(None, None)

  /** Why an add was refused (the alert shown). */
  datatype AddRejection = MissingTime | EndNotAfterStart

  /** The time field an edit changes. */
  datatype Field = StartField | EndField

  /** One session after setting `field` to `value`: the duration is
      recomputed only when both ends are set and the end is after the start,
      and is kept otherwise. */
  function Edited(s: Session, field: Field, value: Option<int>): (u: Session)
    ensures u.(startTime := s.startTime, endTime := s.endTime, duration := s.duration) == s
    ensures field == StartField ==> u.startTime == value && u.endTime == s.endTime
    ensures field == EndField ==> u.endTime == value && u.startTime == s.startTime
    ensures IsSet(u.startTime) && IsSet(u.endTime) && u.endTime.value > u.startTime.value ==>
      u.duration >= 0 && u.duration * 1000 <= u.endTime.value - u.startTime.value < u.duration * 1000 + 1000
    ensures !(IsSet(u.startTime) && IsSet(u.endTime) && u.endTime.value > u.startTime.value) ==>
      u.duration == s.duration
  {
    var updated := match field
      case StartField => s.(startTime := value)
      case EndField => s.(endTime := value);
    if IsSet(updated.startTime) && IsSet(updated.endTime) && updated.endTime.value > updated.startTime.value
    then updated.(duration := CalculateDuration(updated.startTime.value, updated.endTime.value))
    else updated
  }

  /** The save filter as written: not the placeholder, `startTime` and
      `endTime` set, end after start, positive duration. */
  predicate KeptOnSave(s: Session)
  {
    !s.isCurrent && IsSet(s.startTime) && IsSet(s.endTime)
    && s.endTime.value > s.startTime.value && s.duration > 0
  }

  predicate NotCurrent(s: Session) { !s.isCurrent }

  /** The sessions a save writes back, in working-list order. */
  function SavedSessions(ss: seq<Session>): (r: seq<Session>)
    ensures forall s :: s in r <==> s in ss && KeptOnSave(s)
  {
    Seqs.Filter(ss, KeptOnSave)
  }

  /** The save alert fires exactly when some entry other than the
      placeholder is dropped. */
  lemma {:induction false} SaveWarnsOnDrop(ss: seq<Session>)
    ensures |SavedSessions(ss)| <= |Seqs.Filter(ss, NotCurrent)|
    ensures |SavedSessions(ss)| != |Seqs.Filter(ss, NotCurrent)|
      <==> exists i :: 0 <= i < |ss| && !ss[i].isCurrent && !KeptOnSave(ss[i])
  {
    Seqs.FilterNarrower(ss, KeptOnSave, NotCurrent);
  }

  /** Every saved session can be placed on the timeline. */
  lemma {:induction false} SavedSessionsRecorded(ss: seq<Session>)
    ensures Timeline.AllRecorded(SavedSessions(ss))
  {
  }

  class Editor {
    var person: Option<Person>
    var sessions: seq<Session>
    var draft: Draft

    /** A closed dialog with an empty form. */
    constructor ()
      ensures person.None? && sessions == [] && draft == EmptyDraft
    {
      person := None;
      sessions := [];
      draft := EmptyDraft;
    }

    /** Opening the dialog on `p` at time `now` loads its working list.
        Spreading the person's session list requires it to be present. */
    method Open(p: Person, now: int)
      requires p.sessions.Some?
      modifies this
      ensures person == Some(p) && sessions == WorkingList(p, now) && draft == old(draft)
      ensures Consistent(p) ==> GetTotalTime() == TotalTime(p, now)
    {
      var allSessions := p.sessions.value;
      if p.isRunning && IsSet(p.currentSessionStart) {
        var currentSession := Placeholder(p, now);
        allSessions := allSessions + [currentSession];
      }
      person := Some(p);
      sessions := allSessions;
      if Consistent(p) {
        OpenedTotalMatches(p, now);
      }
    }

    /** Typing in the form's two time inputs. */
    method SetDraft(startTime: Option<int>, endTime: Option<int>)
      modifies this
      ensures draft == Draft(startTime, endTime)
      ensures person == old(person) && sessions == old(sessions)
    {
      draft := Draft(startTime, endTime);
    }

    /** `handleAddSession` with the fresh id `id`: a missing field or an end
        not after the start is refused and changes nothing; otherwise the
        session is inserted in start order and the form is cleared. */
    method Add(id: int) returns (rejected: Option<AddRejection>)
      modifies this
      ensures person == old(person)
      ensures old(draft.startTime).None? || old(draft.endTime).None? ==>
        rejected == Some(MissingTime) && sessions == old(sessions) && draft == old(draft)
      ensures (old(draft.startTime).Some? && old(draft.endTime).Some?
        && old(draft.endTime.value) <= old(draft.startTime.value)) ==>
        rejected == Some(EndNotAfterStart) && sessions == old(sessions) && draft == old(draft)
      ensures (old(draft.startTime).Some? && old(draft.endTime).Some?
        && old(draft.endTime.value) > old(draft.startTime.value)) ==>
        var st, et := old(draft.startTime.value), old(draft.endTime.value);
        && rejected.None?
        && sessions == Inserted(old(sessions), Session(Stamp(id), None, None, Some(st), Some(et), CalculateDuration(st, et), false))
        && draft == EmptyDraft
        && GetTotalTime() == old(GetTotalTime()) + CalculateDuration(st, et)
    {
      if draft.startTime.None? || draft.endTime.None? {
        return Some(MissingTime);
      }
      var startTime, endTime := draft.startTime.value, draft.endTime.value;
      if endTime <= startTime {
        return Some(EndNotAfterStart);
      }
      var duration := CalculateDuration(startTime, endTime);
      var session := Session(Stamp(id), None, None, Some(startTime), Some(endTime), duration, false);
      InsertedTotal(sessions, session);
      sessions := Inserted(sessions, session);
      draft := EmptyDraft;
      rejected := None;
    }

    /** `handleEditSession`: every entry with id `sid` gets the edit, every
        other entry is kept as it was. */
    method Edit(sid: SessionId, field: Field, value: Option<int>)
      modifies this
      ensures person == old(person) && draft == old(draft)
      ensures |sessions| == |old(sessions)|
      ensures forall i :: 0 <= i < |sessions| ==>
        sessions[i] == if old(sessions[i]).id == sid then Edited(old(sessions[i]), field, value) else old(sessions[i])
    {
      var prev := sessions;
      sessions := seq(|prev|, i requires 0 <= i < |prev| =>
        if prev[i].id == sid then Edited(prev[i], field, value) else prev[i]);
    }

    /** `handleDeleteSession`: the placeholder is refused; otherwise, once
        confirmed, every entry with id `sid` is removed and the rest keep
        their order. */
    method Delete(sid: SessionId, confirmed: bool) returns (refused: bool)
      modifies this
      ensures refused <==> sid == CurrentSession
      ensures person == old(person) && draft == old(draft)
      ensures refused || !confirmed ==> sessions == old(sessions)
      ensures !refused && confirmed ==> sessions == Seqs.Filter(old(sessions), (s: Session) => s.id != sid)
      ensures forall s :: s in sessions <==> s in old(sessions) && (refused || !confirmed || s.id != sid)
    {
      if sid == CurrentSession {
        return true;
      }
      if confirmed {
        sessions := Seqs.Filter(sessions, (s: Session) => s.id != sid);
      }
      refused := false;
    }

    /** `handleSave`: the person as opened with its sessions replaced by the
        kept ones; every other field, the running state included, is as it
        was. `warned` is the "invalid data" alert. */
    method Save() returns (saved: Person, warned: bool)
      requires person.Some?
      ensures saved == person.value.(sessions := Some(SavedSessions(sessions)))
      ensures forall s :: s in saved.sessions.value <==> s in sessions && KeptOnSave(s)
      ensures warned <==> exists i :: 0 <= i < |sessions| && !sessions[i].isCurrent && !KeptOnSave(sessions[i])
    {
      var validSessions := SavedSessions(sessions);
      SaveWarnsOnDrop(sessions);
      warned := |validSessions| != |Seqs.Filter(sessions, NotCurrent)|;
      saved := person.value.(sessions := Some(validSessions));
    }

    /** `getTotalTime`: the durations of the working list, the placeholder
        included. */
    function GetTotalTime(): (r: int)
      reads this
      ensures sessions == [] ==> r == 0
      ensures (forall i :: 0 <= i < |sessions| ==> sessions[i].duration >= 0) ==> r >= 0
    {
      if forall i :: 0 <= i < |sessions| ==> sessions[i].duration >= 0 then
        SumDurationsNonNegative(sessions);
        SumDurations(sessions)
      else SumDurations(sessions)
    }
  }

  /** A session as `stopSession` records it: `start` and `end` only. */
  function TimerSession(id: int, start: int, end: int): Session
  {
    ClosedSession(id, start, end)
  }

  /** As written, the save drops every session recorded by the timer, since
      it tests `startTime` / `endTime` and the timer writes `start` / `end`.
      For instance a one-minute session from 1000 to 61000 is dropped. */
  lemma {:induction false} SaveDropsTimerSessions(id: int, start: int, end: int)
    requires start != 0 && end != 0
    ensures !KeptOnSave(TimerSession(id, start, end))
    ensures Timeline.Recorded(TimerSession(id, start, end))
    ensures SavedSessions([TimerSession(5, 1000, 61000)]) == []
  {
    assert [TimerSession(5, 1000, 61000)][..0] == [];
  }

  /** The intended save: read each end through `startTime || start` and
      `endTime || end`, so sessions from either writer are judged alike, and
      store the chosen ends under `startTime` / `endTime`. */
  function Normalized(s: Session): (u: Session)
    ensures u.startTime == Either(s.startTime, s.start) && u.endTime == Either(s.endTime, s.end)
    ensures u.start.None? && u.end.None?
    ensures u.(start := s.start, end := s.end, startTime := s.startTime, endTime := s.endTime) == s
  {
    s.(start := None, end := None, startTime := Either(s.startTime, s.start), endTime := Either(s.endTime, s.end))
  }

  function IntendedSavedSessions(ss: seq<Session>): (r: seq<Session>)
    ensures |r| <= |ss|
  {
    SavedSessions(seq(|ss|, i requires 0 <= i < |ss| => Normalized(ss[i])))
  }

  /** Under the intended save, a timer session of positive duration with
      non-zero ends survives, with its ends moved to `startTime` / `endTime`;
      and a session the editor wrote is judged as before, and kept unchanged
      when kept. */
  lemma {:induction false} IntendedSaveKeepsTimerSessions(id: int, start: int, end: int, s: Session)
    requires start != 0 && end != 0 && Elapsed(start, end) > 0
    requires s.start.None? && s.end.None?
    ensures IntendedSavedSessions([TimerSession(id, start, end)])
      == [Session(Stamp(id), None, None, Some(start), Some(end), Elapsed(start, end), false)]
    ensures KeptOnSave(Normalized(s)) <==> KeptOnSave(s)
    ensures KeptOnSave(s) ==> Normalized(s) == s
  {
    var t := TimerSession(id, start, end);
    var n := seq(1, i requires 0 <= i < 1 => Normalized([t][i]));
    assert n == [Normalized(t)];
    assert n[..0] == [];
  }
}
