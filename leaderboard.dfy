/** The leaderboard of src/components/TimelineChart.jsx:
    per-person totals over the window, ordered by total descending. */
module Leaderboard {
  import opened Wrappers
  import opened Timeline
  import Seqs

  /** Index of the first entry of `pid`, or `|es|` when there is none. */
  function FirstIndex(es: seq<Entry>, pid: int): (r: nat)
    ensures r <= |es|
    ensures r < |es| ==> es[r].personId == pid
    ensures forall k :: 0 <= k < r ==> es[k].personId != pid
  {
    if es == [] then 0
    else if es[0].personId == pid then 0
    else 1 + FirstIndex(es[1..], pid)
  }

  predicate Appears(es: seq<Entry>, pid: int)
  {
    exists e :: e in es && e.personId == pid
  }

  /** Whether one of `pid`'s entries is the open interval. */
  predicate AnyRunning(es: seq<Entry>, pid: int)
  {
    es != [] && (AnyRunning(es[..|es| - 1], pid) || (es[|es| - 1].personId == pid && es[|es| - 1].isRunning))
  }

  lemma {:induction false} AnyRunningSnoc(es: seq<Entry>, e: Entry, pid: int)
    ensures AnyRunning(es + [e], pid) == (AnyRunning(es, pid) || (e.personId == pid && e.isRunning))
  {
    assert (es + [e])[..|es|] == es;
  }

  /** `AnyRunning` holds exactly when some entry of the person is running. */
  lemma {:induction false} AnyRunningMeans(es: seq<Entry>, pid: int)
    ensures AnyRunning(es, pid) <==> exists e :: e in es && e.personId == pid && e.isRunning
  {
    if es != [] {
      var init, last := es[..|es| - 1], es[|es| - 1];
      assert es == init + [last];
      AnyRunningMeans(init, pid);
      assert forall x :: x in es <==> x in init || x == last;
    }
  }

  /** A person's accumulator in `personTotals`. */
  datatype Tally = Tally(personId: int, name: string, totalDuration: int, sessionCount: nat, isRunning: bool)

  /** `personTotals.get(pid)`: the index of `pid`'s tally, or `|ts|`. */
  function Find(ts: seq<Tally>, pid: int): (r: nat)
    ensures r <= |ts|
    ensures r < |ts| ==> ts[r].personId == pid
    ensures forall k :: 0 <= k < r ==> ts[k].personId != pid
  {
    if ts == [] then 0
    else if ts[0].personId == pid then 0
    else 1 + Find(ts[1..], pid)
  }

  /** One more entry of the tally's person. */
  function Absorb(t: Tally, e: Entry): Tally
  {
    t.(totalDuration := t.totalDuration + e.duration,
       sessionCount := t.sessionCount + 1,
       isRunning := t.isRunning || e.isRunning)
  }

  /** Adds one entry to its person's tally, creating the tally (named after
      the entry) on the person's first entry. */
  function Upsert(ts: seq<Tally>, e: Entry): seq<Tally>
  {
    var i := Find(ts, e.personId);
    if i < |ts| then ts[i := Absorb(ts[i], e)]
    else
      ts + [Tally(e.personId, e.person, e.duration, 1, e.isRunning)]
  }

  /** The tallies after `allSessions.forEach`, in first-seen order (a `Map`
      iterates in insertion order). */
  function Tallies(es: seq<Entry>): seq<Tally>
  {
    if es == [] then [] else Upsert(Tallies(es[..|es| - 1]), es[|es| - 1])
  }

  /** What a person's tally must hold: the name on their first entry, the sum
      and number of their entries, and whether one of them is running. */
  ghost predicate Tallied(es: seq<Entry>, t: Tally)
  {
    && FirstIndex(es, t.personId) < |es|
    && t.name == es[FirstIndex(es, t.personId)].person
    && t.totalDuration == Seconds(OfPerson(es, t.personId))
    && t.sessionCount == |OfPerson(es, t.personId)|
    && t.sessionCount >= 1
    && t.isRunning == AnyRunning(es, t.personId)
  }

  lemma {:induction false} FirstIndexSnoc(es: seq<Entry>, e: Entry, pid: int)
    ensures FirstIndex(es, pid) < |es| ==> FirstIndex(es + [e], pid) == FirstIndex(es, pid)
    ensures FirstIndex(es, pid) == |es| && e.personId == pid ==> FirstIndex(es + [e], pid) == |es|
  {
    if es != [] && es[0].personId != pid {
      assert (es + [e])[1..] == es[1..] + [e];
      FirstIndexSnoc(es[1..], e, pid);
    }
  }

  /** A tally of another person is unaffected by an entry. */
  lemma {:induction false} TalliedOther(es: seq<Entry>, e: Entry, t: Tally)
    requires Tallied(es, t) && t.personId != e.personId
    ensures Tallied(es + [e], t)
  {
    FirstIndexSnoc(es, e, t.personId);
    OfPersonSnoc(es, e, t.personId);
    PersonSecondsSnoc(es, e, t.personId);
    assert OfPerson(es, t.personId) + [] == OfPerson(es, t.personId);
    var es' := es + [e];
    assert es'[FirstIndex(es, t.personId)] == es[FirstIndex(es, t.personId)];
    AnyRunningSnoc(es, e, t.personId);
  }

  /** A person's tally absorbs the person's next entry. */
  lemma {:induction false} TalliedSame(es: seq<Entry>, e: Entry, t: Tally)
    requires Tallied(es, t) && t.personId == e.personId
    ensures Tallied(es + [e], Absorb(t, e))
  {
    FirstIndexSnoc(es, e, t.personId);
    OfPersonSnoc(es, e, t.personId);
    PersonSecondsSnoc(es, e, t.personId);
    var es' := es + [e];
    assert es'[FirstIndex(es, t.personId)] == es[FirstIndex(es, t.personId)];
    AnyRunningSnoc(es, e, t.personId);
  }

  lemma {:induction false} FirstIndexAbsent(es: seq<Entry>, pid: int)
    requires !Appears(es, pid)
    ensures FirstIndex(es, pid) == |es|
  {
    if es != [] {
      assert es[0] in es;
      assert forall x :: x in es[1..] ==> x in es;
      FirstIndexAbsent(es[1..], pid);
    }
  }

  lemma {:induction false} OfPersonAbsent(es: seq<Entry>, pid: int)
    requires !Appears(es, pid)
    ensures OfPerson(es, pid) == []
  {
    if es != [] {
      var init, last := es[..|es| - 1], es[|es| - 1];
      assert es == init + [last];
      assert last in es;
      assert forall x :: x in init ==> x in es;
      OfPersonAbsent(init, pid);
      OfPersonSnoc(init, last, pid);
    }
  }

  /** The first entry of a person founds the person's tally. */
  lemma {:induction false} TalliedNew(es: seq<Entry>, e: Entry)
    requires !Appears(es, e.personId)
    ensures Tallied(es + [e], Tally(e.personId, e.person, e.duration, 1, e.isRunning))
  {
    var pid := e.personId;
    FirstIndexAbsent(es, pid);
    OfPersonAbsent(es, pid);
    FirstIndexSnoc(es, e, pid);
    OfPersonSnoc(es, e, pid);
    PersonSecondsSnoc(es, e, pid);
    assert [] + [e] == [e];
    assert Seconds([e]) == Seconds([]) + e.duration;
    var es' := es + [e];
    assert es'[|es|] == e;
    AnyRunningMeans(es, pid);
    AnyRunningSnoc(es, e, pid);
  }

  ghost predicate AllTallied(es: seq<Entry>, ts: seq<Tally>)
  {
    forall i :: 0 <= i < |ts| ==> Tallied(es, ts[i])
  }

  ghost predicate Covers(es: seq<Entry>, ts: seq<Tally>)
  {
    forall pid :: Appears(es, pid) <==> Find(ts, pid) < |ts|
  }

  ghost predicate FirstSeenOrder(es: seq<Entry>, ts: seq<Tally>)
  {
    forall i, j :: 0 <= i < j < |ts| ==>
      FirstIndex(es, ts[i].personId) < FirstIndex(es, ts[j].personId)
  }

  /** The tallies of `es`: each holds its person's figures, a person has one
      exactly when they have an entry, and they follow the order of the
      persons' first entries (so no person has two). */
  ghost predicate TallyInv(es: seq<Entry>, ts: seq<Tally>)
  {
    AllTallied(es, ts) && Covers(es, ts) && FirstSeenOrder(es, ts)
  }

  lemma {:induction false} DistinctTallies(es: seq<Entry>, ts: seq<Tally>)
    requires FirstSeenOrder(es, ts)
    ensures forall i, j :: 0 <= i < j < |ts| ==> ts[i].personId != ts[j].personId
  {
  }

  lemma {:induction false} UpsertExistingTallied(es: seq<Entry>, ts: seq<Tally>, e: Entry)
    requires AllTallied(es, ts) && FirstSeenOrder(es, ts) && Find(ts, e.personId) < |ts|
    ensures AllTallied(es + [e], Upsert(ts, e))
  {
    var ts' := Upsert(ts, e);
    DistinctTallies(es, ts);
    forall i | 0 <= i < |ts'| ensures Tallied(es + [e], ts'[i]) {
      UpsertExistingAt(es, ts, e, i);
    }
  }

  lemma {:induction false} UpsertFound(ts: seq<Tally>, e: Entry)
    requires Find(ts, e.personId) < |ts|
    ensures Upsert(ts, e) == ts[Find(ts, e.personId) := Absorb(ts[Find(ts, e.personId)], e)]
  {
  }

  lemma {:induction false} UpsertExistingAt(es: seq<Entry>, ts: seq<Tally>, e: Entry, i: nat)
    requires i < |ts| && Tallied(es, ts[i])
    requires Find(ts, e.personId) < |ts|
    requires i != Find(ts, e.personId) ==> ts[i].personId != e.personId
    ensures Tallied(es + [e], Upsert(ts, e)[i])
  {
    UpsertFound(ts, e);
    if i == Find(ts, e.personId) {
      TalliedSame(es, e, ts[i]);
    } else {
      TalliedOther(es, e, ts[i]);
    }
  }

  lemma {:induction false} UpsertExistingOrder(es: seq<Entry>, ts: seq<Tally>, e: Entry)
    requires AllTallied(es, ts) && FirstSeenOrder(es, ts) && Find(ts, e.personId) < |ts|
    ensures FirstSeenOrder(es + [e], Upsert(ts, e))
  {
    var ts' := Upsert(ts, e);
    forall i | 0 <= i < |ts'| ensures FirstIndex(es + [e], ts'[i].personId) == FirstIndex(es, ts[i].personId) {
      FirstIndexSnoc(es, e, ts[i].personId);
    }
  }

  lemma {:induction false} UpsertCovers(es: seq<Entry>, ts: seq<Tally>, e: Entry)
    requires Covers(es, ts)
    ensures Covers(es + [e], Upsert(ts, e))
  {
    var ts' := Upsert(ts, e);
    forall pid ensures Appears(es + [e], pid) <==> Find(ts', pid) < |ts'| {
      FindUpsert(ts, e, pid);
      AppearsSnoc(es, e, pid);
    }
  }

  lemma {:induction false} FindUpsert(ts: seq<Tally>, e: Entry, pid: int)
    ensures Find(Upsert(ts, e), pid) < |Upsert(ts, e)| <==> Find(ts, pid) < |ts| || e.personId == pid
  {
    var ts' := Upsert(ts, e);
    if Find(ts, e.personId) < |ts| {
      assert forall i :: 0 <= i < |ts| ==> ts'[i].personId == ts[i].personId;
      FindSamePersons(ts, ts', pid);
    } else {
      assert ts' == ts + [Tally(e.personId, e.person, e.duration, 1, e.isRunning)];
      FindSnoc(ts, ts'[|ts|], pid);
    }
  }

  lemma {:induction false} FindSamePersons(ts: seq<Tally>, us: seq<Tally>, pid: int)
    requires |ts| == |us|
    requires forall i :: 0 <= i < |ts| ==> us[i].personId == ts[i].personId
    ensures Find(us, pid) == Find(ts, pid)
  {
    if ts != [] && ts[0].personId != pid {
      FindSamePersons(ts[1..], us[1..], pid);
    }
  }

  lemma {:induction false} FindSnoc(ts: seq<Tally>, t: Tally, pid: int)
    ensures Find(ts + [t], pid) < |ts| + 1 <==> Find(ts, pid) < |ts| || t.personId == pid
  {
    if ts != [] && ts[0].personId != pid {
      assert (ts + [t])[1..] == ts[1..] + [t];
      FindSnoc(ts[1..], t, pid);
    }
  }

  lemma {:induction false} AppearsSnoc(es: seq<Entry>, e: Entry, pid: int)
    ensures Appears(es + [e], pid) <==> Appears(es, pid) || e.personId == pid
  {
    assert e in es + [e];
    assert forall x :: x in es + [e] <==> x in es || x == e;
  }

  lemma {:induction false} UpsertNewAt(es: seq<Entry>, ts: seq<Tally>, e: Entry, i: nat)
    requires i < |ts| && Tallied(es, ts[i]) && ts[i].personId != e.personId
    ensures Tallied(es + [e], ts[i])
    ensures FirstIndex(es + [e], ts[i].personId) == FirstIndex(es, ts[i].personId) < |es|
  {
    TalliedOther(es, e, ts[i]);
    FirstIndexSnoc(es, e, ts[i].personId);
  }

  lemma {:induction false} UpsertNewTallied(es: seq<Entry>, ts: seq<Tally>, e: Entry)
    requires AllTallied(es, ts) && !Appears(es, e.personId) && Find(ts, e.personId) == |ts|
    ensures AllTallied(es + [e], Upsert(ts, e))
  {
    var ts' := Upsert(ts, e);
    assert ts' == ts + [Tally(e.personId, e.person, e.duration, 1, e.isRunning)];
    forall i | 0 <= i < |ts'| ensures Tallied(es + [e], ts'[i]) {
      if i < |ts| {
        UpsertNewAt(es, ts, e, i);
      } else {
        TalliedNew(es, e);
      }
    }
  }

  lemma {:induction false} UpsertNewOrder(es: seq<Entry>, ts: seq<Tally>, e: Entry)
    requires AllTallied(es, ts) && !Appears(es, e.personId) && FirstSeenOrder(es, ts)
    requires Find(ts, e.personId) == |ts|
    ensures FirstSeenOrder(es + [e], Upsert(ts, e))
  {
    var ts' := Upsert(ts, e);
    var es' := es + [e];
    assert ts' == ts + [Tally(e.personId, e.person, e.duration, 1, e.isRunning)];
    forall i | 0 <= i < |ts|
      ensures FirstIndex(es', ts'[i].personId) == FirstIndex(es, ts[i].personId) < |es|
    {
      UpsertNewAt(es, ts, e, i);
    }
    FirstIndexAbsent(es, e.personId);
    FirstIndexSnoc(es, e, e.personId);
  }

  lemma {:induction false} TalliesCorrect(es: seq<Entry>)
    ensures TallyInv(es, Tallies(es))
  {
    if es != [] {
      var init, e := es[..|es| - 1], es[|es| - 1];
      assert es == init + [e];
      TalliesCorrect(init);
      var ts := Tallies(init);
      UpsertCovers(init, ts, e);
      assert Covers(init, ts);
      if Find(ts, e.personId) < |ts| {
        UpsertExistingTallied(init, ts, e);
        UpsertExistingOrder(init, ts, e);
      } else {
        UpsertNewTallied(init, ts, e);
        UpsertNewOrder(init, ts, e);
      }
    }
  }

  /** A leaderboard row. */
  datatype Row = Row(
    personId: int,
    name: string,
    totalDuration: int,
    sessionCount: nat,
    avgDuration: real,
    isRunning: bool)

  function ToRow(t: Tally): Row
    requires t.sessionCount > 0
  {
    Row(t.personId, t.name, t.totalDuration, t.sessionCount,
        t.totalDuration as real / t.sessionCount as real, t.isRunning)
  }

  /** The rows before sorting, in first-seen order. */
  function Unranked(es: seq<Entry>): (r: seq<Row>)
    ensures |r| == |Tallies(es)|
    ensures forall i :: 0 <= i < |r| ==> Tallies(es)[i].sessionCount > 0 && r[i] == ToRow(Tallies(es)[i])
  {
    TalliesCounted(es);
    WithAverages(Tallies(es))
  }

  /** `.map(person => ({ ...person, avgDuration }))`. */
  function WithAverages(ts: seq<Tally>): (r: seq<Row>)
    requires forall i :: 0 <= i < |ts| ==> ts[i].sessionCount > 0
    ensures |r| == |ts| && forall i :: 0 <= i < |r| ==> r[i] == ToRow(ts[i])
  {
    seq(|ts|, i requires 0 <= i < |ts| => ToRow(ts[i]))
  }

  /** Every tally has counted at least one entry. */
  lemma {:induction false} TalliesCounted(es: seq<Entry>)
    ensures forall i :: 0 <= i < |Tallies(es)| ==> Tallies(es)[i].sessionCount > 0
  {
    TalliesCorrect(es);
    assert AllTallied(es, Tallies(es));
  }

  /** `.sort((a, b) => b.totalDuration - a.totalDuration)`, a stable sort. */
  function RowKey(r: Row): int { -r.totalDuration }

  function Rows(es: seq<Entry>): seq<Row>
  {
    Seqs.SortBy(Unranked(es), RowKey)
  }

  /** `leaderboardData`: `null` without a window, else the ranked rows. */
  method LeaderboardData(w: Option<Windowed>) returns (rows: Option<seq<Row>>)
    ensures w.None? ==> rows.None?
    ensures w.Some? ==> rows == Some(Rows(w.value.entries))
  {
    if w.None? {
      return None;
    }
    var allSessions := w.value.entries;
    var personTotals: seq<Tally> := [];
    for i := 0 to |allSessions|
      invariant personTotals == Tallies(allSessions[..i])
    {
      var session := allSessions[i];
      var k := Find(personTotals, session.personId);
      if k < |personTotals| {
        var current := personTotals[k];
        personTotals := personTotals[k := current.(totalDuration := current.totalDuration + session.duration,
                                                   sessionCount := current.sessionCount + 1,
                                                   isRunning := current.isRunning || session.isRunning)];
      } else {
        personTotals := personTotals + [Tally(session.personId, session.person, session.duration, 1, session.isRunning)];
      }
      assert allSessions[..i + 1][..i] == allSessions[..i];
    }
    assert allSessions[..|allSessions|] == allSessions;
    TalliesCounted(allSessions);
    rows := Some(Seqs.SortBy(WithAverages(personTotals), RowKey));
  }

  /** A row shows its person's total, count, average and running flag over
      the window. */
  ghost predicate RowFigures(es: seq<Entry>, r: Row)
  {
    && r.totalDuration == Seconds(OfPerson(es, r.personId))
    && r.sessionCount == |OfPerson(es, r.personId)| > 0
    && r.avgDuration == r.totalDuration as real / r.sessionCount as real
    && r.isRunning == AnyRunning(es, r.personId)
  }

  /** Every row carries its person's figures. */
  lemma {:induction false} RowsFigures(es: seq<Entry>)
    ensures forall r :: r in Rows(es) ==> RowFigures(es, r)
  {
    var ts := Tallies(es);
    var un := Unranked(es);
    TalliesCorrect(es);
    Seqs.SortByCorrect(un, RowKey);
    forall r | r in Rows(es) ensures RowFigures(es, r) {
      assert r in multiset(un);
      var i :| 0 <= i < |un| && un[i] == r;
      assert Tallied(es, ts[i]);
    }
  }

  /** Totals never increase down the board, and rows with equal totals keep
      the order of the persons' first entries in the window. */
  lemma {:induction false} RowsRanked(es: seq<Entry>)
    ensures var rows := Rows(es);
      && (forall i, j :: 0 <= i < j < |rows| ==> rows[i].totalDuration >= rows[j].totalDuration)
      && (forall k :: Seqs.KeyClass(rows, RowKey, k) == Seqs.KeyClass(Unranked(es), RowKey, k))
      && (forall i, j :: 0 <= i < j < |Unranked(es)| ==>
            FirstIndex(es, Unranked(es)[i].personId) < FirstIndex(es, Unranked(es)[j].personId))
  {
    TalliesCorrect(es);
    Seqs.SortByCorrect(Unranked(es), RowKey);
    var rows := Rows(es);
    forall i, j | 0 <= i < j < |rows| ensures rows[i].totalDuration >= rows[j].totalDuration {
      assert RowKey(rows[i]) <= RowKey(rows[j]);
    }
  }

  /** One row per person with an entry in the window, and no other. */
  lemma {:induction false} RowsOnePerPerson(es: seq<Entry>)
    ensures var rows := Rows(es);
      && |rows| == |Tallies(es)|
      && (forall i, j :: 0 <= i < j < |rows| ==> rows[i].personId != rows[j].personId)
      && (forall pid :: Appears(es, pid) <==> exists i :: 0 <= i < |rows| && rows[i].personId == pid)
  {
    var ts := Tallies(es);
    var un := Unranked(es);
    var rows := Rows(es);
    TalliesCorrect(es);
    DistinctTallies(es, ts);
    Seqs.SortByCorrect(un, RowKey);
    DistinctAfterPermutation(un, rows);
    forall pid ensures Appears(es, pid) <==> exists i :: 0 <= i < |rows| && rows[i].personId == pid {
      RowOfPerson(es, pid);
    }
  }

  lemma {:induction false} RowOfPerson(es: seq<Entry>, pid: int)
    ensures Appears(es, pid) <==> exists i :: 0 <= i < |Rows(es)| && Rows(es)[i].personId == pid
  {
    var ts := Tallies(es);
    var un := Unranked(es);
    var rows := Rows(es);
    TalliesCorrect(es);
    Seqs.SortByCorrect(un, RowKey);
    if Appears(es, pid) {
      var k := Find(ts, pid);
      assert un[k] in multiset(rows);
      var i :| 0 <= i < |rows| && rows[i] == un[k];
    }
    if exists i :: 0 <= i < |rows| && rows[i].personId == pid {
      var i :| 0 <= i < |rows| && rows[i].personId == pid;
      assert rows[i] in multiset(un);
      var a :| 0 <= a < |un| && un[a] == rows[i];
      assert Tallied(es, ts[a]);
      assert es[FirstIndex(es, pid)] in es;
    }
  }

  /** Reordering rows of distinct persons yields rows of distinct persons. */
  lemma {:induction false} DistinctAfterPermutation(un: seq<Row>, rows: seq<Row>)
    requires multiset(un) == multiset(rows)
    requires forall i, j :: 0 <= i < j < |un| ==> un[i].personId != un[j].personId
    ensures forall i, j :: 0 <= i < j < |rows| ==> rows[i].personId != rows[j].personId
  {
    forall i, j | 0 <= i < j < |rows| ensures rows[i].personId != rows[j].personId {
      assert rows[i] in multiset(un) && rows[j] in multiset(un);
      var a :| 0 <= a < |un| && un[a] == rows[i];
      var b :| 0 <= b < |un| && un[b] == rows[j];
      OccursOnce(un, a);
      OccursTwice(rows, i, j);
    }
  }

  lemma {:induction false} OccursOnce(un: seq<Row>, a: nat)
    requires a < |un|
    requires forall i, j :: 0 <= i < j < |un| ==> un[i].personId != un[j].personId
    ensures multiset(un)[un[a]] == 1
  {
    var x := un[a];
    var init, last := un[..|un| - 1], un[|un| - 1];
    assert un == init + [last];
    if a == |un| - 1 {
      assert forall k :: 0 <= k < |init| ==> init[k] != x;
      assert x !in init;
    } else {
      assert init[a] == x;
      OccursOnce(init, a);
      assert last != x;
    }
  }

  lemma {:induction false} OccursTwice(rows: seq<Row>, i: nat, j: nat)
    requires i < j < |rows|
    ensures rows[i] == rows[j] ==> multiset(rows)[rows[j]] >= 2
  {
    assert rows == rows[..j] + [rows[j]] + rows[j + 1..];
    assert rows[i] == rows[..j][i];
  }
}
