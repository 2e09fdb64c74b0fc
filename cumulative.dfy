/** The cumulative view of src/components/TimelineChart.jsx: per person, a
    staircase of running totals over the window. */
module Cumulative {
  import opened Sessions
  import opened Timeline
  import opened Daily

  function HoursOf(seconds: int): real
  {
    InUnit(seconds, Hours)
  }

  /** For each entry, a point at its start holding the total before it and
      one at its end holding the total after it. */
  function Steps(mine: seq<Entry>): (r: seq<Point>)
    ensures |r| == 2 * |mine|
  {
    if mine == [] then []
    else
      var init, last := mine[..|mine| - 1], mine[|mine| - 1];
      Steps(init)
        + [Point(last.startTime, HoursOf(Seconds(init))), Point(last.endTime, HoursOf(Seconds(mine)))]
  }

  /** One person's line: the window start at zero, the steps, and the window
      end holding the final total. */
  function Staircase(mine: seq<Entry>, startDate: int, endDate: int): seq<Point>
  {
    [Point(startDate, 0.0)] + Steps(mine) + [Point(endDate, HoursOf(Seconds(mine)))]
  }

  lemma {:induction false} StepsSnoc(mine: seq<Entry>, j: nat)
    requires j < |mine|
    ensures Seconds(mine[..j + 1]) == Seconds(mine[..j]) + mine[j].duration
    ensures Steps(mine[..j + 1]) == Steps(mine[..j])
      + [Point(mine[j].startTime, HoursOf(Seconds(mine[..j]))),
         Point(mine[j].endTime, HoursOf(Seconds(mine[..j]) + mine[j].duration))]
  {
    assert mine[..j + 1][..j] == mine[..j];
  }

  /** One person's cumulative line. */
  method CumulativeSeries(es: seq<Entry>, p: Person, startDate: int, endDate: int)
    returns (s: Series)
    ensures s.personId == p.id && s.name == p.name && s.color == ChartColor(p)
    ensures s.points == Staircase(OfPerson(es, p.id), startDate, endDate)
  {
    var personSessions := OfPerson(es, p.id);
    var dataPoints := [Point(startDate, 0.0)];
    var cumulativeTime := 0;
    for j := 0 to |personSessions|
      invariant dataPoints == [Point(startDate, 0.0)] + Steps(personSessions[..j])
      invariant cumulativeTime == Seconds(personSessions[..j])
    {
      var session := personSessions[j];
      StepsSnoc(personSessions, j);
      dataPoints := dataPoints + [Point(session.startTime, HoursOf(cumulativeTime))];
      cumulativeTime := cumulativeTime + session.duration;
      dataPoints := dataPoints + [Point(session.endTime, HoursOf(cumulativeTime))];
    }
    assert personSessions[..|personSessions|] == personSessions;
    dataPoints := dataPoints + [Point(endDate, HoursOf(cumulativeTime))];
    s := Series(p.id, p.name, ChartColor(p), dataPoints);
  }

  /** The cumulative datasets: one staircase per person with records. */
  method CumulativeChart(persons: seq<Person>, w: Windowed) returns (datasets: seq<Series>)
    ensures var shown := PersonsWithSessions(persons);
      && |datasets| == |shown|
      && forall k :: 0 <= k < |datasets| ==>
        && datasets[k].personId == shown[k].id
        && datasets[k].color == ChartColor(shown[k])
        && datasets[k].points == Staircase(OfPerson(w.entries, shown[k].id), w.startDate, w.endDate)
  {
    var shown := PersonsWithSessions(persons);
    datasets := [];
    for k := 0 to |shown|
      invariant |datasets| == k
      invariant forall i :: 0 <= i < k ==>
        && datasets[i].personId == shown[i].id
        && datasets[i].color == ChartColor(shown[i])
        && datasets[i].points == Staircase(OfPerson(w.entries, shown[i].id), w.startDate, w.endDate)
    {
      var series := CumulativeSeries(w.entries, shown[k], w.startDate, w.endDate);
      datasets := datasets + [series];
    }
  }

  /** Entry `j` contributes points `2j` and `2j + 1` of the steps. */
  lemma {:induction false} StepsAt(mine: seq<Entry>, j: nat)
    requires j < |mine|
    ensures Steps(mine)[2 * j] == Point(mine[j].startTime, HoursOf(Seconds(mine[..j])))
    ensures Steps(mine)[2 * j + 1] == Point(mine[j].endTime, HoursOf(Seconds(mine[..j + 1])))
  {
    var init := mine[..|mine| - 1];
    if j == |mine| - 1 {
      assert mine[..j] == init;
      assert mine[..j + 1] == mine;
    } else {
      StepsAt(init, j);
      assert init[j] == mine[j];
      assert init[..j] == mine[..j];
      assert init[..j + 1] == mine[..j + 1];
    }
  }

  /** With no negative duration, the running total never decreases. */
  lemma {:induction false} PrefixSecondsGrow(mine: seq<Entry>, a: nat, b: nat)
    requires a <= b <= |mine|
    requires forall e :: e in mine ==> e.duration >= 0
    ensures Seconds(mine[..a]) <= Seconds(mine[..b])
  {
    if a < b {
      PrefixSecondsGrow(mine, a, b - 1);
      assert mine[..b][..b - 1] == mine[..b - 1];
      assert mine[b - 1] in mine;
    }
  }

  /** Point `i` of a staircase holds the total of the first `i / 2` entries:
      the line starts at zero and ends at the person's total in the window. */
  lemma {:induction false} StaircaseLevel(mine: seq<Entry>, startDate: int, endDate: int, i: nat)
    requires i < 2 * |mine| + 2
    ensures |Staircase(mine, startDate, endDate)| == 2 * |mine| + 2
    ensures Staircase(mine, startDate, endDate)[i].y == HoursOf(Seconds(mine[..i / 2]))
  {
    var pts := Staircase(mine, startDate, endDate);
    if i == 0 {
      assert mine[..0] == [];
    } else if i == |pts| - 1 {
      assert mine[..i / 2] == mine;
    } else {
      var j := (i - 1) / 2;
      StepsAt(mine, j);
      assert pts[i] == Steps(mine)[i - 1];
    }
  }

  /** The cumulative line never goes down when every duration is
      non-negative. */
  lemma {:induction false} StaircaseRises(mine: seq<Entry>, startDate: int, endDate: int)
    requires forall e :: e in mine ==> e.duration >= 0
    ensures var pts := Staircase(mine, startDate, endDate);
      forall i, j :: 0 <= i <= j < |pts| ==> pts[i].y <= pts[j].y
  {
    var pts := Staircase(mine, startDate, endDate);
    forall i, j | 0 <= i <= j < |pts| ensures pts[i].y <= pts[j].y {
      StaircaseLevel(mine, startDate, endDate, i);
      StaircaseLevel(mine, startDate, endDate, j);
      PrefixSecondsGrow(mine, i / 2, j / 2);
    }
  }
}
