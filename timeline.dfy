/** The unified session timeline of src/components/TimelineChart.jsx: every
    stored session of every person with records, plus one synthetic entry per
    running person, sorted by start time and cut to a time window. */
module Timeline {
  import opened Wrappers
  import opened Sessions
  import Seqs

  /** One entry of the unified timeline; `isRunning` marks the synthetic entry
      for an open interval, which is never stored. */
  datatype Entry = Entry(
    personId: int,
    person: string,
    startTime: int,
    endTime: int,
    duration: int,
    isRunning: bool)

  /** Persons the charts consider: some stored session, or running. */
  predicate HasRecords(p: Person)
  {
    (p.sessions.Some? && |p.sessions.value| > 0) || p.isRunning
  }

  function PersonsWithSessions(ps: seq<Person>): (r: seq<Person>)
  {
    Seqs.Filter(ps, HasRecords)
  }

  /** A session the timeline can place: `start || startTime` and
      `end || endTime` are both present. Every session `stopSession` or the
      editor's save writes is such a session. */
  predicate Recorded(s: Session)
  {
    Either(s.start, s.startTime).Some? && Either(s.end, s.endTime).Some?
  }

  predicate AllRecorded(ss: seq<Session>)
  {
    forall s :: s in ss ==> Recorded(s)
  }

  predicate WellRecorded(ps: seq<Person>)
  {
    forall p :: p in ps ==> AllRecorded(StoredSessions(p))
  }

  function ClosedEntry(p: Person, s: Session): Entry
    requires Recorded(s)
  {
    Entry(p.id, p.name, Either(s.start, s.startTime).value, Either(s.end, s.endTime).value, s.duration, false)
  }

  /** The synthetic entry of an open interval: it ends now. */
  function RunningEntry(p: Person, now: int): Entry
    requires IsSet(p.currentSessionStart)
  {
    var start := p.currentSessionStart.value;
    Entry(p.id, p.name, start, now, Elapsed(start, now), true)
  }

  function SessionEntries(p: Person, ss: seq<Session>): (r: seq<Entry>)
    requires AllRecorded(ss)
    ensures |r| == |ss|
    ensures forall i :: 0 <= i < |r| ==> r[i] == ClosedEntry(p, ss[i])
  {
    if ss == [] then []
    else SessionEntries(p, ss[..|ss| - 1]) + [ClosedEntry(p, ss[|ss| - 1])]
  }

  predicate ShowsOpenInterval(p: Person)
  {
    p.isRunning && IsSet(p.currentSessionStart)
  }

  /** A person's part of the timeline: one entry per stored session, then the
      open interval when running with a start time. */
  function PersonEntries(p: Person, now: int): seq<Entry>
    requires AllRecorded(StoredSessions(p))
  {
    SessionEntries(p, StoredSessions(p))
      + (if ShowsOpenInterval(p) then [RunningEntry(p, now)] else [])
  }

  /** The entries pushed by the nested loops, in push order. */
  function Pushed(ps: seq<Person>, now: int): seq<Entry>
    requires WellRecorded(ps)
  {
    if ps == [] then []
    else Pushed(ps[..|ps| - 1], now) + PersonEntries(ps[|ps| - 1], now)
  }

  function StartKey(e: Entry): int { e.startTime }

  /** The timeline sorted by start time (`allSessions.sort`). */
  function UnifiedTimeline(ps: seq<Person>, now: int): seq<Entry>
    requires WellRecorded(ps)
  {
    var withSessions := PersonsWithSessions(ps);
    assert WellRecorded(withSessions);
    Seqs.SortBy(Pushed(withSessions, now), StartKey)
  }

  /** Builds `allSessions` by pushing in nested loops, then sorts it. */
  method CollectSessions(persons: seq<Person>, now: int) returns (all: seq<Entry>)
    requires WellRecorded(persons)
    ensures all == UnifiedTimeline(persons, now)
  {
    var withSessions := PersonsWithSessions(persons);
    all := [];
    for i := 0 to |withSessions|
      invariant all == Pushed(withSessions[..i], now)
    {
      assert withSessions[i] in withSessions;
      all := PushPerson(all, withSessions[i], now);
      assert withSessions[..i + 1][..i] == withSessions[..i];
    }
    assert withSessions[..|withSessions|] == withSessions;
    all := Seqs.SortBy(all, StartKey);
  }

  /** The body of the outer loop: one person's sessions, then the open
      interval. */
  method PushPerson(all0: seq<Entry>, p: Person, now: int) returns (all: seq<Entry>)
    requires AllRecorded(StoredSessions(p))
    ensures all == all0 + PersonEntries(p, now)
  {
    all := all0;
    var ss := StoredSessions(p);
    for j := 0 to |ss|
      invariant all == all0 + SessionEntries(p, ss[..j])
    {
      assert ss[..j + 1][..j] == ss[..j];
      all := all + [ClosedEntry(p, ss[j])];
    }
    assert ss[..|ss|] == ss;
    if p.isRunning && IsSet(p.currentSessionStart) {
      all := all + [RunningEntry(p, now)];
    }
  }

  function StoredCount(ps: seq<Person>): nat
  {
    if ps == [] then 0 else StoredCount(ps[..|ps| - 1]) + |StoredSessions(ps[|ps| - 1])|
  }

  function OpenCount(ps: seq<Person>): nat
  {
    if ps == [] then 0
    else OpenCount(ps[..|ps| - 1]) + (if ShowsOpenInterval(ps[|ps| - 1]) then 1 else 0)
  }

  /** One entry per stored session and one per open interval. */
  lemma {:induction false} PushedCount(ps: seq<Person>, now: int)
    requires WellRecorded(ps)
    ensures |Pushed(ps, now)| == StoredCount(ps) + OpenCount(ps)
  {
    if ps != [] {
      PushedCount(ps[..|ps| - 1], now);
    }
  }

  /** Every open-interval entry ends now and lasts the floored seconds since
      its start; every other entry carries a stored session's duration. */
  lemma {:induction false} PushedEntries(ps: seq<Person>, now: int)
    requires WellRecorded(ps)
    ensures forall e :: e in Pushed(ps, now) && e.isRunning ==>
      e.endTime == now && e.duration == Elapsed(e.startTime, now)
    ensures forall e :: e in Pushed(ps, now) ==> exists p :: p in ps && p.id == e.personId
  {
    if ps != [] {
      PushedEntries(ps[..|ps| - 1], now);
      var last := ps[|ps| - 1];
      forall e | e in Pushed(ps, now) ensures exists p :: p in ps && p.id == e.personId {
        if e in Pushed(ps[..|ps| - 1], now) {
          var p :| p in ps[..|ps| - 1] && p.id == e.personId;
          assert p in ps;
        } else {
          assert e in PersonEntries(last, now);
          assert last in ps;
        }
      }
    }
  }

  /** The unified timeline is sorted by start time and holds exactly one
      entry per stored session of a considered person plus one per open
      interval. */
  lemma {:induction false} UnifiedTimelineShape(ps: seq<Person>, now: int)
    requires WellRecorded(ps)
    ensures Seqs.SortedBy(UnifiedTimeline(ps, now), StartKey)
    ensures |UnifiedTimeline(ps, now)|
            == StoredCount(PersonsWithSessions(ps)) + OpenCount(PersonsWithSessions(ps))
    ensures multiset(UnifiedTimeline(ps, now)) == multiset(Pushed(PersonsWithSessions(ps), now))
  {
    var w := PersonsWithSessions(ps);
    assert WellRecorded(w);
    Seqs.SortByCorrect(Pushed(w, now), StartKey);
    PushedCount(w, now);
  }

  /** The entries of one person, in timeline order. */
  function OfPerson(es: seq<Entry>, pid: int): (r: seq<Entry>)
    ensures |r| <= |es|
    ensures forall e :: e in r <==> e in es && e.personId == pid
  {
    Seqs.Filter(es, (e: Entry) => e.personId == pid)
  }

  /** Summed durations (`reduce((sum, s) => sum + s.duration, 0)`). */
  function Seconds(es: seq<Entry>): int
  {
    if es == [] then 0 else Seconds(es[..|es| - 1]) + es[|es| - 1].duration
  }

  lemma {:induction false} OfPersonSnoc(es: seq<Entry>, e: Entry, pid: int)
    ensures OfPerson(es + [e], pid) == OfPerson(es, pid) + (if e.personId == pid then [e] else [])
  {
    assert (es + [e])[..|es|] == es;
  }

  /** A person's seconds grow by exactly the durations of the entries added. */
  lemma {:induction false} PersonSecondsSnoc(es: seq<Entry>, e: Entry, pid: int)
    ensures Seconds(OfPerson(es + [e], pid))
      == Seconds(OfPerson(es, pid)) + (if e.personId == pid then e.duration else 0)
  {
    OfPersonSnoc(es, e, pid);
    var m := OfPerson(es, pid);
    if e.personId == pid {
      assert (m + [e])[..|m|] == m;
      assert Seconds(m + [e]) == Seconds(m) + e.duration;
    } else {
      assert m + [] == m;
    }
  }

  /** The range selector of a view. */
  datatype Range = Today | Week | Month | All

  const WeekMs := 7 * 24 * 60 * 60 * 1000
  const MonthMs := 30 * 24 * 60 * 60 * 1000

  /** The local calendar: the day number of an instant and the first instant
      (local midnight) of a day number. */
  datatype Calendar = Calendar(dayOf: int -> int, dayStart: int -> int)

  /** Each instant lies in its day, and days follow one another in time. */
  ghost predicate ValidCalendar(cal: Calendar)
  {
    && (forall t :: cal.dayStart(cal.dayOf(t)) <= t < cal.dayStart(cal.dayOf(t) + 1))
    && (forall d1, d2 :: d1 < d2 ==> cal.dayStart(d1) < cal.dayStart(d2))
  }

  /** An instant between the start of a day and the start of the next lies in
      that day. */
  lemma {:induction false} DayOfWithin(cal: Calendar, t: int, d: int)
    requires ValidCalendar(cal)
    requires cal.dayStart(d) <= t < cal.dayStart(d + 1)
    ensures cal.dayOf(t) == d
  {
    var e := cal.dayOf(t);
    assert cal.dayStart(e) <= t < cal.dayStart(e + 1);
    assert e < d ==> cal.dayStart(e + 1) <= cal.dayStart(d);
    assert e > d ==> cal.dayStart(d + 1) <= cal.dayStart(e);
  }

  /** The day number never decreases as time goes on. */
  lemma {:induction false} DayOfMonotone(cal: Calendar, t1: int, t2: int)
    requires ValidCalendar(cal)
    requires t1 <= t2
    ensures cal.dayOf(t1) <= cal.dayOf(t2)
  {
    var e1, e2 := cal.dayOf(t1), cal.dayOf(t2);
    assert cal.dayStart(e1) <= t1 && t2 < cal.dayStart(e2 + 1);
    assert e1 > e2 ==> cal.dayStart(e2 + 1) <= cal.dayStart(e1);
  }

  datatype Span = Span(startDate: int, endDate: int)

  /** Window bounds per range; `all` starts at the first timeline entry. */
  function Bounds(all: seq<Entry>, range: Range, now: int, cal: Calendar): (span: Span)
    requires range == All ==> |all| > 0
    ensures range != Today ==> span.endDate == now
    ensures range == Week ==> span.endDate - span.startDate == 7 * 24 * 3600 * 1000
    ensures range == Month ==> span.endDate - span.startDate == 30 * 24 * 3600 * 1000
    ensures range == All ==> span.startDate == all[0].startTime
  {
    match range
    case Today => Span(cal.dayStart(cal.dayOf(now)), cal.dayStart(cal.dayOf(now) + 1) - 1)
    case Week => Span(now - WeekMs, now)
    case Month => Span(now - MonthMs, now)
    case All => Span(all[0].startTime, now)
  }

  /** The entries starting at or after `startDate`, in order, unclipped. */
  function InWindow(all: seq<Entry>, startDate: int): seq<Entry>
  {
    Seqs.Filter(all, (e: Entry) => e.startTime >= startDate)
  }

  datatype Windowed = Windowed(entries: seq<Entry>, startDate: int, endDate: int)

  /** The `timelineData` memo after sorting: `null` for an empty timeline or
      an empty window. */
  function WindowOf(all: seq<Entry>, range: Range, now: int, cal: Calendar): Option<Windowed>
  {
    if all == [] then None
    else
      var span := Bounds(all, range, now, cal);
      var kept := InWindow(all, span.startDate);
      if kept == [] then None else Some(Windowed(kept, span.startDate, span.endDate))
  }

  /** `timelineData`: the sorted timeline of the persons with records, cut to
      the window of `range`. */
  method TimelineData(persons: seq<Person>, range: Range, now: int, cal: Calendar)
    returns (r: Option<Windowed>)
    requires WellRecorded(persons)
    ensures r == WindowOf(UnifiedTimeline(persons, now), range, now, cal)
  {
    if PersonsWithSessions(persons) == [] {
      assert Pushed(PersonsWithSessions(persons), now) == [];
      return None;
    }
    var all := CollectSessions(persons, now);
    r := WindowOf(all, range, now, cal);
  }

  /** The window keeps exactly the entries starting at or after its start, in
      timeline order, with no upper bound; it is `null` exactly when no entry
      qualifies. */
  lemma {:induction false} WindowKeepsExactly(all: seq<Entry>, range: Range, now: int, cal: Calendar)
    requires Seqs.SortedBy(all, StartKey)
    ensures WindowOf(all, range, now, cal).Some? ==>
      var w := WindowOf(all, range, now, cal).value;
      && (forall e :: e in w.entries <==> e in all && e.startTime >= w.startDate)
      && Seqs.SortedBy(w.entries, StartKey)
    ensures WindowOf(all, range, now, cal).None? <==>
      (all == [] || forall e :: e in all ==> e.startTime < Bounds(all, range, now, cal).startDate)
  {
    if all != [] {
      var sd := Bounds(all, range, now, cal).startDate;
      var kept := InWindow(all, sd);
      FilterSorted(all, sd);
      if kept == [] {
        forall e | e in all ensures e.startTime < sd {
          assert e.startTime >= sd ==> e in kept;
        }
      } else {
        assert kept[0] in all;
      }
    }
  }

  lemma {:induction false} FilterSorted(all: seq<Entry>, sd: int)
    requires Seqs.SortedBy(all, StartKey)
    ensures Seqs.SortedBy(InWindow(all, sd), StartKey)
  {
    if all != [] {
      var init := all[..|all| - 1];
      assert Seqs.SortedBy(init, StartKey);
      FilterSorted(init, sd);
      var k := InWindow(init, sd);
      forall i | 0 <= i < |k| ensures k[i].startTime <= all[|all| - 1].startTime {
        assert k[i] in init;
      }
    }
  }

  /** The `all` range keeps the whole sorted timeline. */
  lemma {:induction false} AllRangeKeepsEverything(all: seq<Entry>, now: int, cal: Calendar)
    requires Seqs.SortedBy(all, StartKey) && all != []
    ensures WindowOf(all, All, now, cal) == Some(Windowed(all, all[0].startTime, now))
  {
    Seqs.FilterKeepsAll(all, (e: Entry) => e.startTime >= all[0].startTime);
  }

  /** The `24h` window is today, local midnight to its last millisecond. */
  lemma {:induction false} TodayCoversNow(all: seq<Entry>, now: int, cal: Calendar)
    requires ValidCalendar(cal)
    ensures var span := Bounds(all, Today, now, cal);
      && span.startDate <= now <= span.endDate
      && cal.dayOf(span.startDate) == cal.dayOf(now) == cal.dayOf(span.endDate)
  {
    var d := cal.dayOf(now);
    var span := Bounds(all, Today, now, cal);
    assert cal.dayStart(d) < cal.dayStart(d + 1);
    DayOfWithin(cal, span.startDate, d);
    DayOfWithin(cal, span.endDate, d);
  }
}
