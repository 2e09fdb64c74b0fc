/** The daily view of src/components/TimelineChart.jsx: per local day and
    person, the summed durations of the entries starting that day, drawn over
    every day of the window. */
module Daily {
  import opened Sessions
  import opened Timeline

  /** Seconds of `pid`'s entries that start on local day `day`. */
  function DayTotal(es: seq<Entry>, dayOf: int -> int, day: int, pid: int): int
  {
    if es == [] then 0
    else
      var last := es[|es| - 1];
      DayTotal(es[..|es| - 1], dayOf, day, pid)
        + (if last.personId == pid && dayOf(last.startTime) == day then last.duration else 0)
  }

  /** `dailyData.get(day)?.get(pid) || 0`. */
  function Bucket(daily: map<int, map<int, int>>, day: int, pid: int): int
  {
    if day in daily && pid in daily[day] then daily[day][pid] else 0
  }

  /** Builds the day-to-person-to-seconds map in one pass over the window. */
  method BuildDailyData(es: seq<Entry>, cal: Calendar) returns (daily: map<int, map<int, int>>)
    ensures forall day, pid :: Bucket(daily, day, pid) == DayTotal(es, cal.dayOf, day, pid)
    ensures forall day :: day in daily <==> exists e :: e in es && cal.dayOf(e.startTime) == day
  {
    daily := map[];
    for i := 0 to |es|
      invariant forall day, pid :: Bucket(daily, day, pid) == DayTotal(es[..i], cal.dayOf, day, pid)
      invariant forall day :: day in daily <==> exists e :: e in es[..i] && cal.dayOf(e.startTime) == day
    {
      var e := es[i];
      var dayKey := cal.dayOf(e.startTime);
      if dayKey !in daily {
        daily := daily[dayKey := map[]];
      }
      var dayPersonData := daily[dayKey];
      var currentTime := if e.personId in dayPersonData then dayPersonData[e.personId] else 0;
      daily := daily[dayKey := dayPersonData[e.personId := currentTime + e.duration]];
      assert es[..i + 1][..i] == es[..i];
      assert es[..i + 1] == es[..i] + [e];
    }
    assert es[..|es|] == es;
  }

  /** The x axis: every local day from the window's first to its last. */
  method DayAxis(startDate: int, endDate: int, cal: Calendar) returns (days: seq<int>)
    ensures var d0, d1 := cal.dayOf(startDate), cal.dayOf(endDate);
      && |days| == (if d0 <= d1 then d1 - d0 + 1 else 0)
      && forall i :: 0 <= i < |days| ==> days[i] == d0 + i
  {
    var d0, d1 := cal.dayOf(startDate), cal.dayOf(endDate);
    days := [];
    var day := d0;
    while day <= d1
      invariant d0 <= day <= if d0 <= d1 then d1 + 1 else d0
      invariant |days| == day - d0
      invariant forall i :: 0 <= i < |days| ==> days[i] == d0 + i
      decreases d1 - day
    {
      days := days + [day];
      day := day + 1;
    }
  }

  datatype Point = Point(x: int, y: real)

  /** One line of a chart: a person's points. */
  datatype Series = Series(personId: int, name: string, color: string, points: seq<Point>)

  /** The daily datasets: for every person with records, one point per day
      of the window holding that day's hours. */
  method DailyChart(persons: seq<Person>, w: Windowed, cal: Calendar) returns (datasets: seq<Series>)
    ensures var shown := PersonsWithSessions(persons);
      var d0, d1 := cal.dayOf(w.startDate), cal.dayOf(w.endDate);
      && |datasets| == |shown|
      && forall k :: 0 <= k < |datasets| ==>
        && datasets[k].personId == shown[k].id
        && datasets[k].color == ChartColor(shown[k])
        && |datasets[k].points| == (if d0 <= d1 then d1 - d0 + 1 else 0)
        && forall i :: 0 <= i < |datasets[k].points| ==>
          datasets[k].points[i]
            == Point(d0 + i, InUnit(DayTotal(w.entries, cal.dayOf, d0 + i, shown[k].id), Hours))
  {
    var daily := BuildDailyData(w.entries, cal);
    var allDays := DayAxis(w.startDate, w.endDate, cal);
    var shown := PersonsWithSessions(persons);
    datasets := [];
    for k := 0 to |shown|
      invariant |datasets| == k
      invariant forall j :: 0 <= j < k ==>
        && datasets[j].personId == shown[j].id
        && datasets[j].color == ChartColor(shown[j])
        && |datasets[j].points| == |allDays|
        && forall i :: 0 <= i < |allDays| ==>
          datasets[j].points[i] == Point(allDays[i], InUnit(DayTotal(w.entries, cal.dayOf, allDays[i], shown[j].id), Hours))
    {
      var series := DaySeries(daily, allDays, shown[k], w.entries, cal.dayOf);
      datasets := datasets + [series];
    }
  }

  /** One person's daily line, read from the buckets. */
  method DaySeries(daily: map<int, map<int, int>>, allDays: seq<int>, p: Person, es: seq<Entry>, dayOf: int -> int)
    returns (s: Series)
    requires forall day, pid :: Bucket(daily, day, pid) == DayTotal(es, dayOf, day, pid)
    ensures s.personId == p.id && s.name == p.name && s.color == ChartColor(p)
    ensures |s.points| == |allDays|
    ensures forall i :: 0 <= i < |allDays| ==>
      s.points[i] == Point(allDays[i], InUnit(DayTotal(es, dayOf, allDays[i], p.id), Hours))
  {
    var points := seq(|allDays|, i requires 0 <= i < |allDays| =>
      Point(allDays[i], InUnit(Bucket(daily, allDays[i], p.id), Hours)));
    s := Series(p.id, p.name, ChartColor(p), points);
  }

  /** A day on which the person started nothing shows zero. */
  lemma {:induction false} IdleDayIsZero(es: seq<Entry>, dayOf: int -> int, day: int, pid: int)
    requires forall e :: e in es && e.personId == pid ==> dayOf(e.startTime) != day
    ensures DayTotal(es, dayOf, day, pid) == 0
  {
    if es != [] {
      IdleDayIsZero(es[..|es| - 1], dayOf, day, pid);
    }
  }

  /** The buckets of days `d0 .. d0 + n - 1` summed. */
  function AxisSum(es: seq<Entry>, dayOf: int -> int, d0: int, n: nat, pid: int): int
  {
    if n == 0 then 0 else AxisSum(es, dayOf, d0, n - 1, pid) + DayTotal(es, dayOf, d0 + n - 1, pid)
  }

  lemma {:induction false} AxisSumSnoc(es: seq<Entry>, e: Entry, dayOf: int -> int, d0: int, n: nat, pid: int)
    ensures AxisSum(es + [e], dayOf, d0, n, pid)
      == AxisSum(es, dayOf, d0, n, pid)
         + (if e.personId == pid && d0 <= dayOf(e.startTime) < d0 + n then e.duration else 0)
  {
    assert (es + [e])[..|es + [e]| - 1] == es;
    if n > 0 {
      AxisSumSnoc(es, e, dayOf, d0, n - 1, pid);
    }
  }

  /** No second is lost or counted twice: when every entry of the person
      starts on a day of the axis, the daily buckets add up to the person's
      seconds in the window. */
  lemma {:induction false} DailyConservation(es: seq<Entry>, dayOf: int -> int, d0: int, n: nat, pid: int)
    requires forall e :: e in es && e.personId == pid ==> d0 <= dayOf(e.startTime) < d0 + n
    ensures AxisSum(es, dayOf, d0, n, pid) == Seconds(OfPerson(es, pid))
  {
    if es == [] {
      ZeroAxis(dayOf, d0, n, pid);
    } else {
      var init, last := es[..|es| - 1], es[|es| - 1];
      assert es == init + [last];
      DailyConservation(init, dayOf, d0, n, pid);
      AxisSumSnoc(init, last, dayOf, d0, n, pid);
      PersonSecondsSnoc(init, last, pid);
    }
  }

  lemma {:induction false} ZeroAxis(dayOf: int -> int, d0: int, n: nat, pid: int)
    ensures AxisSum([], dayOf, d0, n, pid) == 0
  {
    if n > 0 {
      ZeroAxis(dayOf, d0, n - 1, pid);
    }
  }

  /** An entry of the window that starts at or before the window's end falls
      on a day of the axis. */
  lemma {:induction false} WindowOnAxis(w: Windowed, cal: Calendar, e: Entry)
    requires ValidCalendar(cal)
    requires e in w.entries && w.startDate <= e.startTime <= w.endDate
    ensures cal.dayOf(w.startDate) <= cal.dayOf(e.startTime) <= cal.dayOf(w.endDate)
  {
    DayOfMonotone(cal, w.startDate, e.startTime);
    DayOfMonotone(cal, e.startTime, w.endDate);
  }

  /** The window has a start but no end: an entry starting on a day after
      today (a session entered in the future) stays in the 7-day window, yet
      its day comes after the last day of the axis, so no point of the daily
      view holds it while the leaderboard and the cumulative view count it. */
  lemma {:induction false} FutureEntryOffAxis(all: seq<Entry>, now: int, cal: Calendar, e: Entry)
    requires ValidCalendar(cal) && e in all
    requires e.startTime >= cal.dayStart(cal.dayOf(now) + 1)
    ensures WindowOf(all, Week, now, cal).Some?
    ensures var w := WindowOf(all, Week, now, cal).value;
      && e in w.entries
      && cal.dayOf(e.startTime) > cal.dayOf(w.endDate)
  {
    var d, n := cal.dayOf(e.startTime), cal.dayOf(now);
    assert cal.dayStart(n) <= now < cal.dayStart(n + 1);
    assert cal.dayStart(d) <= e.startTime < cal.dayStart(d + 1);
    assert e in InWindow(all, now - WeekMs);
  }
}
