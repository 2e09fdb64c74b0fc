/** The rank and medal drawn beside each person in the Gantt view of
    src/components/TimelineChart.jsx. */
module Gantt {
  import opened Wrappers
  import opened Sessions
  import opened Timeline
  import Seqs
  import Leaderboard

  /** The persons with records who have at least one entry in the window,
      in directory order. */
  function Ranked(shown: seq<Person>, es: seq<Entry>): (r: seq<Person>)
    ensures |r| <= |shown|
    ensures forall p :: p in r <==> p in shown && Leaderboard.Appears(es, p.id)
  {
    Seqs.Filter(shown, (p: Person) => Leaderboard.Appears(es, p.id))
  }

  datatype Standing = Standing(id: int, totalDuration: int)

  /** Each ranked person's seconds in the window. */
  function Standings(ranked: seq<Person>, es: seq<Entry>): seq<Standing>
  {
    seq(|ranked|, i requires 0 <= i < |ranked| => Standing(ranked[i].id, Seconds(OfPerson(es, ranked[i].id))))
  }

  function StandingKey(s: Standing): int { -s.totalDuration }

  /** The standings, largest total first; ties keep directory order. */
  function Leaders(ranked: seq<Person>, es: seq<Entry>): seq<Standing>
  {
    Seqs.SortBy(Standings(ranked, es), StandingKey)
  }

  /** Position of the first standing of `id`, or -1 when there is none. */
  function IndexOfId(ss: seq<Standing>, id: int): (r: int)
    ensures -1 <= r < |ss|
    ensures r >= 0 ==> ss[r].id == id && forall k :: 0 <= k < r ==> ss[k].id != id
    ensures r == -1 <==> forall k :: 0 <= k < |ss| ==> ss[k].id != id
  {
    if ss == [] then -1
    else if ss[0].id == id then 0
    else
      var r := IndexOfId(ss[1..], id);
      if r == -1 then -1 else r + 1
  }

  /** The person's rank: 0 for the largest total in the window. */
  function Rank(ranked: seq<Person>, es: seq<Entry>, id: int): int
  {
    IndexOfId(Leaders(ranked, es), id)
  }

  datatype Medal = Gold | Silver | Bronze

  /** The medal beside a rank, shown only when more than one person is
      ranked. */
  function MedalFor(rank: int, count: nat): (m: Option<Medal>)
    ensures m.Some? <==> 0 <= rank < 3 && count > 1
    ensures m == Some(Gold) <==> rank == 0 && count > 1
    ensures m == Some(Silver) <==> rank == 1 && count > 1
    ensures m == Some(Bronze) <==> rank == 2 && count > 1
  {
    if count <= 1 then None
    else if rank == 0 then Some(Gold)
    else if rank == 1 then Some(Silver)
    else if rank == 2 then Some(Bronze)
    else None
  }

  /** The medal drawn beside one person of the Gantt view. */
  function MedalOf(ranked: seq<Person>, es: seq<Entry>, id: int): Option<Medal>
  {
    MedalFor(Rank(ranked, es, id), |ranked|)
  }

  lemma {:induction false} StandingsOf(ranked: seq<Person>, es: seq<Entry>, s: Standing)
    requires s in Leaders(ranked, es)
    ensures exists p :: p in ranked && s == Standing(p.id, Seconds(OfPerson(es, p.id)))
  {
    var st := Standings(ranked, es);
    Seqs.SortByCorrect(st, StandingKey);
    assert s in multiset(Leaders(ranked, es));
    assert s in st;
    var i :| 0 <= i < |st| && st[i] == s;
    assert ranked[i] in ranked;
  }

  /** Every ranked person has a rank among the ranked, and the standing at
      that rank holds their seconds in the window. */
  lemma {:induction false} RankOfRanked(ranked: seq<Person>, es: seq<Entry>, p: Person)
    requires p in ranked
    ensures var l, r := Leaders(ranked, es), Rank(ranked, es, p.id);
      && |l| == |ranked|
      && 0 <= r < |ranked|
      && l[r] == Standing(p.id, Seconds(OfPerson(es, p.id)))
  {
    var st, l := Standings(ranked, es), Leaders(ranked, es);
    Seqs.SortByCorrect(st, StandingKey);
    var i :| 0 <= i < |ranked| && ranked[i] == p;
    assert st[i] in multiset(l);
    assert st[i] in l;
    var r := Rank(ranked, es, p.id);
    assert r >= 0;
    assert l[r] in l;
    StandingsOf(ranked, es, l[r]);
  }

  /** A larger total always ranks strictly ahead, whatever the order the
      persons came in. */
  lemma {:induction false} RankFollowsTotals(ranked: seq<Person>, es: seq<Entry>, p: Person, q: Person)
    requires p in ranked && q in ranked
    requires Seconds(OfPerson(es, p.id)) > Seconds(OfPerson(es, q.id))
    ensures Rank(ranked, es, p.id) < Rank(ranked, es, q.id)
  {
    var l := Leaders(ranked, es);
    assert Seqs.SortedBy(l, StandingKey) by {
      Seqs.SortByCorrect(Standings(ranked, es), StandingKey);
    }
    RankOfRanked(ranked, es, p);
    RankOfRanked(ranked, es, q);
  }

  /** Persons with different ids never share a rank, so each medal goes to
      at most one of them. */
  lemma {:induction false} RanksDistinct(ranked: seq<Person>, es: seq<Entry>, p: Person, q: Person)
    requires p in ranked && q in ranked && p.id != q.id
    ensures Rank(ranked, es, p.id) != Rank(ranked, es, q.id)
  {
    RankOfRanked(ranked, es, p);
    RankOfRanked(ranked, es, q);
  }

  /** The gold medal goes to a person whose total no one ranked exceeds. */
  lemma {:induction false} GoldIsLeader(ranked: seq<Person>, es: seq<Entry>, p: Person, q: Person)
    requires p in ranked && q in ranked
    requires MedalOf(ranked, es, p.id) == Some(Gold)
    ensures Seconds(OfPerson(es, q.id)) <= Seconds(OfPerson(es, p.id))
  {
    RankOfRanked(ranked, es, q);
    if Seconds(OfPerson(es, q.id)) > Seconds(OfPerson(es, p.id)) {
      RankFollowsTotals(ranked, es, q, p);
    }
  }

  /** With at least two persons ranked, someone holds the gold medal. */
  lemma {:induction false} GoldAwarded(ranked: seq<Person>, es: seq<Entry>)
    requires |ranked| > 1
    ensures exists p :: p in ranked && MedalOf(ranked, es, p.id) == Some(Gold)
  {
    var l := Leaders(ranked, es);
    Seqs.SortByCorrect(Standings(ranked, es), StandingKey);
    assert l[0] in l;
    StandingsOf(ranked, es, l[0]);
    var p :| p in ranked && l[0] == Standing(p.id, Seconds(OfPerson(es, p.id)));
    assert Rank(ranked, es, p.id) == 0;
  }
}
