/** Session arithmetic on a person (src/utils/dataUtils.js): total and live
    time, and the start / stop / reset transitions. Wall-clock time is the
    parameter `now` (milliseconds since the epoch); fresh ids are parameters. */
module Sessions {
  import opened Wrappers

  /** A session id: a millisecond stamp, or the editor's `'current-session'` tag. */
  datatype SessionId = Stamp(ms: int) | CurrentSession

  /** A stored session. `stopSession` writes `start`/`end`, the session editor
      writes `startTime`/`endTime`; an absent or unparsable field is `None`.
      `isCurrent` marks the editor's placeholder for the open interval. */
  datatype Session = Session(
    id: SessionId,
    start: Option<int>,
    end: Option<int>,
    startTime: Option<int>,
    endTime: Option<int>,
    duration: int,
    isCurrent: bool)

  /** Cosmetic fields of a person: avatar, avatar type and colour. */
  datatype Look = Look(avatar: string, avatarType: string, color: string)

  /** A tracked person. `sessions` is `None` in records of the legacy format,
      which carry a `legacyTotal` instead (0 when absent). */
  datatype Person = Person(
    id: int,
    name: string,
    look: Look,
    sessions: Option<seq<Session>>,
    isRunning: bool,
    currentSessionStart: Option<int>,
    legacyTotal: int)

  /** JavaScript truthiness of a timestamp: present and non-zero. */
  predicate IsSet(t: Option<int>) { t.Some? && t.value != 0 }

  /** `a || b` on timestamps. */
  function Either(a: Option<int>, b: Option<int>): (r: Option<int>)
    ensures IsSet(a) ==> r == a
    ensures !IsSet(a) ==> r == b
  {
    if IsSet(a) then a else b
  }

  /** Whole seconds from `from` to `now`, rounded down (`Math.floor(ms / 1000)`). */
  function Elapsed(from: int, now: int): (r: int)
    ensures r * 1000 <= now - from < r * 1000 + 1000
    ensures from <= now ==> r >= 0
  {
    (now - from) / 1000
  }

  /** The sessions of a person, `[]` when the field is absent (`sessions || []`). */
  function StoredSessions(p: Person): seq<Session>
  {
    p.sessions.GetOr([])
  }

  /** Sum of the `duration` fields, accumulated from the left. */
  function SumDurations(ss: seq<Session>): int
  {
    if ss == [] then 0 else SumDurations(ss[..|ss| - 1]) + ss[|ss| - 1].duration
  }

  lemma {:induction false} SumDurationsAppend(a: seq<Session>, b: seq<Session>)
    ensures SumDurations(a + b) == SumDurations(a) + SumDurations(b)
  {
    if b == [] {
      assert a + b == a;
    } else {
      assert (a + b)[..|a + b| - 1] == a + b[..|b| - 1];
      SumDurationsAppend(a, b[..|b| - 1]);
    }
  }

  /** Seconds of the open interval, counted whenever `currentSessionStart`
      is set (whether or not `isRunning` is). */
  function OpenSeconds(p: Person, now: int): int
  {
    if IsSet(p.currentSessionStart) then Elapsed(p.currentSessionStart.value, now) else 0
  }

  /** The value `calculateTotalTime` returns: the stored durations plus the
      open interval; a legacy record (no `sessions`) with a non-zero
      `totalTime` reports that instead. */
  function TotalTime(p: Person, now: int): int
  {
    if p.sessions.None? && p.legacyTotal != 0 then p.legacyTotal
    else SumDurations(StoredSessions(p)) + OpenSeconds(p, now)
  }

  /** `calculateTotalTime`: the `forEach` accumulation over the sessions, then
      the open interval, then the legacy fallback. */
  method CalculateTotalTime(p: Person, now: int) returns (total: int)
    ensures total == TotalTime(p, now)
  {
    total := 0;
    if p.sessions.Some? {
      var ss := p.sessions.value;
      var i := 0;
      while i < |ss|
        invariant 0 <= i <= |ss|
        invariant total == SumDurations(ss[..i])
      {
        assert ss[..i + 1][..i] == ss[..i];
        total := total + ss[i].duration;
        i := i + 1;
      }
      assert ss[..|ss|] == ss;
    }
    if IsSet(p.currentSessionStart) {
      total := total + Elapsed(p.currentSessionStart.value, now);
    }
    if p.legacyTotal != 0 && p.sessions.None? {
      total := p.legacyTotal;
    }
  }

  /** `calculateCurrentSessionTime`: the whole seconds of the open interval,
      or 0 unless the person is running with a start time. */
  function CurrentSessionTime(p: Person, now: int): (r: int)
    ensures !(p.isRunning && IsSet(p.currentSessionStart)) ==> r == 0
    ensures p.isRunning && IsSet(p.currentSessionStart) ==>
      r * 1000 <= now - p.currentSessionStart.value < r * 1000 + 1000
  {
    if !p.isRunning || !IsSet(p.currentSessionStart) then 0
    else Elapsed(p.currentSessionStart.value, now)
  }

  /** `startSession`: a running person is returned unchanged; otherwise only
      the running flag and the start time change. */
  function StartSession(p: Person, now: int): (r: Person)
    ensures p.isRunning ==> r == p
    ensures !p.isRunning ==> r.isRunning && r.currentSessionStart == Some(now)
    ensures r.(isRunning := p.isRunning, currentSessionStart := p.currentSessionStart) == p
  {
    if p.isRunning then p else p.(isRunning := true, currentSessionStart := Some(now))
  }

  /** The session `stopSession` records for an interval opened at `start`. */
  function ClosedSession(id: int, start: int, now: int): Session
  {
    Session(Stamp(id), Some(start), Some(now), None, None, Elapsed(start, now), false)
  }

  /** `stopSession`: a no-op unless running with a start time; otherwise the
      open interval is appended as one closed session after the existing ones
      and the running state is cleared. `id` is the fresh `Date.now()` id. */
  function StopSession(p: Person, now: int, id: int): (r: Person)
    ensures !(p.isRunning && IsSet(p.currentSessionStart)) ==> r == p
    ensures p.isRunning && IsSet(p.currentSessionStart) ==>
      && r.sessions.Some?
      && |r.sessions.value| == |StoredSessions(p)| + 1
      && r.sessions.value[..|StoredSessions(p)|] == StoredSessions(p)
      && r.sessions.value[|StoredSessions(p)|] == ClosedSession(id, p.currentSessionStart.value, now)
      && !r.isRunning && r.currentSessionStart.None?
      && r.(sessions := p.sessions, isRunning := p.isRunning, currentSessionStart := p.currentSessionStart) == p
  {
    if !p.isRunning || !IsSet(p.currentSessionStart) then p
    else
      var closed := ClosedSession(id, p.currentSessionStart.value, now);
      var ss := StoredSessions(p) + [closed];
      assert ss[..|StoredSessions(p)|] == StoredSessions(p);
      p.(isRunning := false, currentSessionStart := None, sessions := Some(ss))
  }

  /** `resetPersonSessions`: no sessions, not running, no start time; every
      other field is kept. */
  function ResetPersonSessions(p: Person): (r: Person)
    ensures r.sessions == Some([]) && !r.isRunning && r.currentSessionStart.None?
    ensures r.(sessions := p.sessions, isRunning := p.isRunning, currentSessionStart := p.currentSessionStart) == p
  {
    p.(sessions := Some([]), currentSessionStart := None, isRunning := false)
  }

  /** The flag pair agrees: running exactly when a start time is set. */
  predicate Consistent(p: Person)
  {
    p.isRunning <==> IsSet(p.currentSessionStart)
  }

  /** The timer as a two-state machine. */
  datatype TimerState = Stopped | Running(startedAt: int)

  function StateOf(p: Person): TimerState
  {
    if p.isRunning && IsSet(p.currentSessionStart) then Running(p.currentSessionStart.value) else Stopped
  }

  /** Start, stop and reset keep the flag pair consistent and move the timer
      as the two-state machine prescribes: start is a no-op while running,
      stop a no-op while stopped, and reset always ends stopped. */
  lemma {:induction false} TimerTransitions(p: Person, now: int, id: int)
    requires Consistent(p) && now != 0
    ensures Consistent(StartSession(p, now)) && Consistent(StopSession(p, now, id))
    ensures Consistent(ResetPersonSessions(p))
    ensures StateOf(StartSession(p, now)) == (if p.isRunning then StateOf(p) else Running(now))
    ensures StateOf(StopSession(p, now, id)) == Stopped
    ensures StateOf(ResetPersonSessions(p)) == Stopped
    ensures |StoredSessions(StopSession(p, now, id))|
            == |StoredSessions(p)| + (if StateOf(p).Running? then 1 else 0)
  {
  }

  lemma {:induction false} SumDurationsSnoc(ss: seq<Session>, x: Session)
    ensures SumDurations(ss + [x]) == SumDurations(ss) + x.duration
  {
    assert (ss + [x])[..|ss + [x]| - 1] == ss;
  }

  /** Stopping moves the open interval into the stored sessions without
      changing the total at the same instant: its floored seconds become the
      new session's duration. (A legacy record with a reported total and no
      sessions is excluded: stopping it discards the legacy figure.) */
  lemma {:induction false} StopKeepsTotal(p: Person, now: int, id: int)
    requires p.sessions.Some? || p.legacyTotal == 0
    ensures TotalTime(StopSession(p, now, id), now) == TotalTime(p, now)
  {
    if p.isRunning && IsSet(p.currentSessionStart) {
      SumDurationsSnoc(StoredSessions(p), ClosedSession(id, p.currentSessionStart.value, now));
    }
  }

  /** A running record of the legacy format reports its legacy figure until
      it is stopped; stopping creates a session list, after which only the
      new session counts and the legacy figure is gone. */
  lemma {:induction false} StopDropsLegacyTotal(p: Person, now: int, id: int)
    requires p.sessions.None? && p.legacyTotal != 0
    requires p.isRunning && IsSet(p.currentSessionStart)
    ensures TotalTime(p, now) == p.legacyTotal
    ensures TotalTime(StopSession(p, now, id), now) == Elapsed(p.currentSessionStart.value, now)
  {
    var closed := ClosedSession(id, p.currentSessionStart.value, now);
    SumDurationsSnoc([], closed);
    assert StoredSessions(StopSession(p, now, id)) == [] + [closed];
  }

  /** A list of non-negative durations has a non-negative sum. */
  lemma {:induction false} SumDurationsNonNegative(ss: seq<Session>)
    requires forall i :: 0 <= i < |ss| ==> ss[i].duration >= 0
    ensures SumDurations(ss) >= 0
  {
    if ss != [] {
      var init := ss[..|ss| - 1];
      assert forall i :: 0 <= i < |init| ==> init[i] == ss[i];
      SumDurationsNonNegative(init);
    }
  }

  /** After a reset the total is 0 at any time. */
  lemma {:induction false} ResetZeroesTotal(p: Person, now: int)
    ensures TotalTime(ResetPersonSessions(p), now) == 0
  {
  }

  /** Start at `t1`, stop at `t2`: exactly one session is added, its duration
      is not negative, and the total grows by that duration. */
  lemma {:induction false} StartThenStop(p: Person, t1: int, t2: int, id: int)
    requires Consistent(p) && !p.isRunning && t1 != 0 && t1 <= t2
    requires p.sessions.Some? || p.legacyTotal == 0
    ensures var q := StopSession(StartSession(p, t1), t2, id);
      && |StoredSessions(q)| == |StoredSessions(p)| + 1
      && StoredSessions(q)[|StoredSessions(p)|].duration >= 0
      && TotalTime(q, t2) == TotalTime(p, t2) + StoredSessions(q)[|StoredSessions(p)|].duration
  {
    var q := StopSession(StartSession(p, t1), t2, id);
    SumDurationsSnoc(StoredSessions(p), ClosedSession(id, t1, t2));
    assert StoredSessions(q) == StoredSessions(p) + [ClosedSession(id, t1, t2)];
  }

  lemma {:induction false} ElapsedMonotone(from: int, t1: int, t2: int)
    requires t1 <= t2
    ensures Elapsed(from, t1) <= Elapsed(from, t2)
  {
  }

  /** Totals never decrease as the clock advances with no other change. */
  lemma {:induction false} TotalTimeMonotone(p: Person, t1: int, t2: int)
    requires t1 <= t2
    ensures TotalTime(p, t1) <= TotalTime(p, t2)
  {
    if IsSet(p.currentSessionStart) {
      ElapsedMonotone(p.currentSessionStart.value, t1, t2);
    }
  }

  /** While a start time is set, every further second of wall-clock time adds
      exactly one second to the total. */
  lemma {:induction false} TotalTimeTicks(p: Person, now: int)
    requires IsSet(p.currentSessionStart)
    requires p.sessions.Some? || p.legacyTotal == 0
    ensures TotalTime(p, now + 1000) == TotalTime(p, now) + 1
  {
    var c := p.currentSessionStart.value;
    var a, b := Elapsed(c, now), Elapsed(c, now + 1000);
    assert (b - 1) * 1000 <= now - c < (b - 1) * 1000 + 1000;
  }

  /** The chart unit: hours or days. */
  datatype Unit = Hours | Days

  const SecondsPerDay := 86400
  const SecondsPerHour := 3600

  /** The largest total in a non-empty dataset. */
  function MaxTotal(ps: seq<Person>, now: int): (m: int)
    requires |ps| > 0
    ensures forall i :: 0 <= i < |ps| ==> TotalTime(ps[i], now) <= m
    ensures exists i :: 0 <= i < |ps| && TotalTime(ps[i], now) == m
  {
    if |ps| == 1 then TotalTime(ps[0], now)
    else
      var rest := MaxTotal(ps[..|ps| - 1], now);
      var last := TotalTime(ps[|ps| - 1], now);
      assert forall i :: 0 <= i < |ps| - 1 ==> ps[..|ps| - 1][i] == ps[i];
      if last > rest then last else rest
  }

  /** `getBestUnitForDataset`: one unit for the whole dataset, days exactly
      when some person's total reaches a day (an empty dataset gets hours,
      as `Math.max()` is `-Infinity`). */
  function BestUnit(ps: seq<Person>, now: int): (u: Unit)
    ensures u == Days <==> exists i :: 0 <= i < |ps| && TotalTime(ps[i], now) >= SecondsPerDay
  {
    if ps == [] then Hours
    else if MaxTotal(ps, now) >= SecondsPerDay then Days
    else Hours
  }

  const DefaultColor := "#9CA3AF"

  /** `person.color || '#9CA3AF'`: the person's colour, grey when it is unset
      (the empty string). */
  function ChartColor(p: Person): (c: string)
    ensures c != []
    ensures p.look.color != [] ==> c == p.look.color
    ensures p.look.color == [] ==> c == DefaultColor
  {
    if p.look.color == [] then DefaultColor else p.look.color
  }

  /** `secondsToDays` / `secondsToHours` before rounding. */
  function InUnit(seconds: int, u: Unit): real
  {
    match u
    case Days => seconds as real / SecondsPerDay as real
    case Hours => seconds as real / SecondsPerHour as real
  }
}
