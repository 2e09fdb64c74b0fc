/** The statistics panel of src/components/Statistics.jsx: who is shown, the
    one unit of the bar chart, the table ordered by total, and the global
    figures below it. Totals are `calculateTotalTime` at the instant `now`. */
module Statistics {
  import opened Wrappers
  import opened Sessions
  import Seqs
  import Timeline
  import Directory

  /** Shown: some recorded time, or a running timer. */
  predicate Shown(p: Person, now: int)
  {
    TotalTime(p, now) > 0 || p.isRunning
  }

  /** `personsWithTimeOrRunning`, in directory order; when it is empty the
      panel shows its empty state instead. */
  function ShownPersons(ps: seq<Person>, now: int): (r: seq<Person>)
    ensures |r| <= |ps|
    ensures forall p :: p in r <==> p in ps && Shown(p, now)
  {
    Seqs.Filter(ps, (p: Person) => Shown(p, now))
  }

  /** One bar of the chart: its label and its height in the chart's unit. */
  datatype Bar = Bar(name: string, value: real)

  /** The bars, in the order of the shown persons, all in the one unit
      chosen for the shown set. */
  function Bars(shown: seq<Person>, now: int): (r: seq<Bar>)
    ensures |r| == |shown|
  {
    var unit := BestUnit(shown, now);
    seq(|shown|, i requires 0 <= i < |shown| => Bar(shown[i].name, InUnit(TotalTime(shown[i], now), unit)))
  }

  /** The persons left out of the panel never decide the unit: it is the
      unit the whole directory would get. */
  lemma {:induction false} UnitIgnoresHidden(ps: seq<Person>, now: int)
    ensures BestUnit(ShownPersons(ps, now), now) == BestUnit(ps, now)
  {
    var shown := ShownPersons(ps, now);
    if BestUnit(ps, now) == Days {
      var i :| 0 <= i < |ps| && TotalTime(ps[i], now) >= SecondsPerDay;
      assert ps[i] in shown;
      var j :| 0 <= j < |shown| && shown[j] == ps[i];
    }
    if BestUnit(shown, now) == Days {
      var j :| 0 <= j < |shown| && TotalTime(shown[j], now) >= SecondsPerDay;
      assert shown[j] in ps;
      var i :| 0 <= i < |ps| && ps[i] == shown[j];
    }
  }

  /** In days some bar reaches 1; in hours every bar stays below 24. */
  lemma {:induction false} BarsInRange(shown: seq<Person>, now: int)
    ensures var bars := Bars(shown, now);
      && (BestUnit(shown, now) == Days ==> exists i :: 0 <= i < |bars| && bars[i].value >= 1.0)
      && (BestUnit(shown, now) == Hours ==> forall i :: 0 <= i < |bars| ==> bars[i].value < 24.0)
  {
    var bars := Bars(shown, now);
    if BestUnit(shown, now) == Days {
      var i :| 0 <= i < |shown| && TotalTime(shown[i], now) >= SecondsPerDay;
      assert bars[i].value >= 1.0;
    }
  }

  function TotalKey(now: int): Person -> int
  {
    (p: Person) => -TotalTime(p, now)
  }

  /** The table: the shown persons by total, largest first. */
  function TableOrder(shown: seq<Person>, now: int): seq<Person>
  {
    Seqs.SortBy(shown, TotalKey(now))
  }

  /** The table lists every shown person once, totals never increase down
      the table, and equal totals keep directory order. */
  lemma {:induction false} TableSorted(shown: seq<Person>, now: int)
    ensures var t := TableOrder(shown, now);
      && multiset(t) == multiset(shown)
      && (forall i, j :: 0 <= i < j < |t| ==> TotalTime(t[i], now) >= TotalTime(t[j], now))
      && forall k :: Seqs.KeyClass(t, TotalKey(now), k) == Seqs.KeyClass(shown, TotalKey(now), k)
  {
    Seqs.SortByCorrect(shown, TotalKey(now));
    var t := TableOrder(shown, now);
    forall i, j | 0 <= i < j < |t| ensures TotalTime(t[i], now) >= TotalTime(t[j], now) {
      assert TotalKey(now)(t[i]) <= TotalKey(now)(t[j]);
    }
  }

  /** `sessionCount`: the stored sessions, plus one while running. */
  function SessionCount(p: Person): (r: nat)
    ensures r >= |StoredSessions(p)|
    ensures r > |StoredSessions(p)| <==> p.isRunning
  {
    |StoredSessions(p)| + (if p.isRunning then 1 else 0)
  }

  /** For a person whose running flag and start time agree, the session
      count is the number of bars the person has on the timeline. */
  lemma {:induction false} SessionCountMatchesTimeline(p: Person, now: int)
    requires Consistent(p) && Timeline.AllRecorded(StoredSessions(p))
    ensures SessionCount(p) == |Timeline.PersonEntries(p, now)|
  {
  }

  /** The three global figures: people shown, their summed total, and how
      many of them are running. */
  datatype Globals = Globals(activePeople: nat, totalTime: int, running: nat)

  function GlobalFigures(shown: seq<Person>, now: int): (g: Globals)
    ensures g.activePeople == |shown|
    ensures g.running <= g.activePeople
    ensures g.running == |Seqs.Filter(shown, Directory.Running)|
    ensures (forall i :: 0 <= i < |shown| ==> TotalTime(shown[i], now) >= 0) ==> g.totalTime >= 0
  {
    Globals(|shown|, Directory.SumTotals(shown, now), Directory.CountRunning(shown))
  }

  lemma {:induction false} SumTotalsSnoc(ps: seq<Person>, p: Person, now: int)
    ensures Directory.SumTotals(ps + [p], now) == Directory.SumTotals(ps, now) + TotalTime(p, now)
    ensures Directory.CountRunning(ps + [p]) == Directory.CountRunning(ps) + (if p.isRunning then 1 else 0)
  {
    assert (ps + [p])[..|ps|] == ps;
  }

  lemma {:induction false} ShownSnoc(ps: seq<Person>, p: Person, now: int)
    ensures ShownPersons(ps + [p], now) == ShownPersons(ps, now) + (if Shown(p, now) then [p] else [])
  {
    assert (ps + [p])[..|ps|] == ps;
  }

  /** Every running person is shown, so the panel's running count is the
      directory's. */
  lemma {:induction false} RunningMatchesDirectory(ps: seq<Person>, now: int)
    ensures Directory.CountRunning(ShownPersons(ps, now)) == Directory.CountRunning(ps)
  {
    if ps != [] {
      var init, last := ps[..|ps| - 1], ps[|ps| - 1];
      assert ps == init + [last];
      RunningMatchesDirectory(init, now);
      ShownSnoc(init, last, now);
      SumTotalsSnoc(init, last, now);
      SumTotalsSnoc(ShownPersons(init, now), last, now);
      assert ShownPersons(init, now) + [] == ShownPersons(init, now);
    }
  }

  /** When no total is negative, a person left out has a total of zero, so
      the panel's global total is the directory's. */
  lemma {:induction false} TotalMatchesDirectory(ps: seq<Person>, now: int)
    requires forall i :: 0 <= i < |ps| ==> TotalTime(ps[i], now) >= 0
    ensures Directory.SumTotals(ShownPersons(ps, now), now) == Directory.SumTotals(ps, now)
  {
    if ps != [] {
      var init, last := ps[..|ps| - 1], ps[|ps| - 1];
      assert ps == init + [last];
      assert forall i :: 0 <= i < |init| ==> init[i] == ps[i];
      TotalMatchesDirectory(init, now);
      ShownSnoc(init, last, now);
      SumTotalsSnoc(init, last, now);
      SumTotalsSnoc(ShownPersons(init, now), last, now);
      assert ShownPersons(init, now) + [] == ShownPersons(init, now);
    }
  }

  /** The tooltip of bar `i` as written: it indexes the shown list after the
      table has sorted that same array in place, so it reads the person in
      table position `i`. */
  function TooltipPersonAsWritten(shown: seq<Person>, now: int, i: nat): Person
    requires i < |shown|
  {
    Seqs.SortByCorrect(shown, TotalKey(now));
    TableOrder(shown, now)[i]
  }

  /** A stopped person with one edited session of `seconds` seconds. */
  function WithOneSession(id: int, name: string, seconds: int): Person
  {
    Person(id, name, Look("", "", ""),
      Some([Session(Stamp(id), None, None, Some(1), Some(1 + 1000 * seconds), seconds, false)]), false, None, 0)
  }

  /** Two shown persons listed with the smaller total first: the tooltip of
      the first bar, labelled "A", reports B's total and status. */
  lemma {:induction false} TooltipMislabels()
    ensures var a, b := WithOneSession(1, "A", 100), WithOneSession(2, "B", 200);
      && Bars([a, b], 0)[0].name == "A"
      && TooltipPersonAsWritten([a, b], 0, 0) == b
  {
    var a, b := WithOneSession(1, "A", 100), WithOneSession(2, "B", 200);
    assert TotalTime(a, 0) == 100 by {
      assert StoredSessions(a)[..0] == [];
    }
    assert TotalTime(b, 0) == 200 by {
      assert StoredSessions(b)[..0] == [];
    }
    var key := TotalKey(0);
    assert [a, b][..1] == [a];
    assert [a][..0] == [];
    assert Seqs.SortBy([a], key) == [a];
    assert Seqs.InsertBy([], b, key) == [b];
    assert Seqs.SortBy([a, b], key) == [b, a];
  }

  /** The intended tooltip reads the person of the bar itself (the table
      sorting a copy): its name is the bar's label and its total is the
      bar's height. */
  function TooltipPerson(shown: seq<Person>, i: nat): Person
    requires i < |shown|
  {
    shown[i]
  }

  lemma {:induction false} TooltipMatchesBar(shown: seq<Person>, now: int, i: nat)
    requires i < |shown|
    ensures Bars(shown, now)[i].name == TooltipPerson(shown, i).name
    ensures Bars(shown, now)[i].value == InUnit(TotalTime(TooltipPerson(shown, i), now), BestUnit(shown, now))
  {
  }
}
