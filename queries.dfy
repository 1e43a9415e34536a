/**
 * The query and ranking layer of the dashboard (app.py:75-96): summary
 * totals over the whole ledger, the minimum-matches filter and the rankings
 * by goals and by assists, highest first.
 */
module Queries {
  import opened Records
  import opened LedgerStore

  /** The three headline figures (app.py:80-82). */
  datatype Summary = Summary(totalGoals: nat, totalAssists: nat, totalPlayers: nat)

  function SummaryOf(rows: seq<Row>): (s: Summary)
    ensures UniqueNames(rows) ==> s.totalPlayers == |Names(rows)|
  {
    assert UniqueNames(rows) ==> |Names(rows)| == |rows| by {
      if UniqueNames(rows) {
        UniqueNamesCount(rows);
      }
    }
    Summary(Totals(rows).goals, Totals(rows).assists, |rows|)
  }

  /** After an upload the headline totals have grown by the batch's goals and
      assists, and the player count is the number of distinct names seen. */
  lemma SummaryAfterUpload(rows: seq<Row>, batch: seq<Row>)
    requires WellFormed(rows)
    requires AllObservations(batch)
    ensures SummaryOf(MergeAll(rows, batch)).totalGoals == SummaryOf(rows).totalGoals + Totals(batch).goals
    ensures SummaryOf(MergeAll(rows, batch)).totalAssists == SummaryOf(rows).totalAssists + Totals(batch).assists
    ensures SummaryOf(MergeAll(rows, batch)).totalPlayers == |Names(rows) + Names(batch)|
  {
    MergeAllTotals(rows, batch);
    MergeAllNames(rows, batch);
    MergeAllUnique(rows, batch);
    UniqueNamesCount(MergeAll(rows, batch));
  }

  /** The slider's upper end, `df['PJ'].max()` (app.py:84). */
  function MaxPlayed(rows: seq<Row>): (m: nat)
    requires rows != []
    ensures forall k :: 0 <= k < |rows| ==> rows[k].played <= m
    ensures exists k :: 0 <= k < |rows| && rows[k].played == m
    decreases |rows|
  {
    if |rows| == 1 then rows[0].played
    else
      var rest := MaxPlayed(rows[1..]);
      assert forall k :: 1 <= k < |rows| ==> rows[k] == rows[1..][k - 1];
      if rows[0].played >= rest then rows[0].played else rest
  }

  /** `df[df['PJ'] >= min_pj]` (app.py:85): each row is kept, as often as it
      occurs, exactly when it has played at least `minPlayed` matches. */
  function AtLeast(rows: seq<Row>, minPlayed: int): (kept: seq<Row>)
    ensures forall x :: multiset(kept)[x] == if x.played >= minPlayed then multiset(rows)[x] else 0
    decreases |rows|
  {
    if rows == [] then []
    else
      assert rows == [rows[0]] + rows[1..];
      (if rows[0].played >= minPlayed then [rows[0]] else []) + AtLeast(rows[1..], minPlayed)
  }

  /** A filter every row passes keeps the table as it is. */
  lemma {:induction false} AtLeastAll(rows: seq<Row>, minPlayed: int)
    requires forall k :: 0 <= k < |rows| ==> rows[k].played >= minPlayed
    ensures AtLeast(rows, minPlayed) == rows
    decreases |rows|
  {
    if rows != [] {
      var rest := rows[1..];
      assert forall k :: 0 <= k < |rest| ==> rest[k].played == rows[k + 1].played;
      AtLeastAll(rest, minPlayed);
      assert rows[0].played >= minPlayed;
      assert AtLeast(rows, minPlayed) == [rows[0]] + rest;
      assert rows == [rows[0]] + rest;
    }
  }

  /** At the slider's lowest setting nothing is filtered out of a ledger. */
  lemma AtLeastOne(rows: seq<Row>)
    requires WellFormed(rows)
    ensures AtLeast(rows, 1) == rows
  {
    AtLeastAll(rows, 1);
  }

  /**
   * A fraction rounded to the nearest whole number, ties to the even
   * neighbour, as `round` does.
   */
  function RoundHalfEven(num: nat, den: nat): (q: nat)
    requires den > 0
    ensures 2 * (q * den - num) <= den && 2 * (num - q * den) <= den
    ensures 2 * (q * den - num) == den || 2 * (num - q * den) == den ==> q % 2 == 0
  {
    var q, rem := num / den, num % den;
    RoundStep(num, den, q, rem);
    if 2 * rem > den || (2 * rem == den && q % 2 == 1) then q + 1 else q
  }

  /** The two candidates of a rounding, written as distances from the fraction. */
  lemma RoundStep(num: nat, den: nat, q: nat, rem: nat)
    requires den > 0 && rem < den && num == q * den + rem
    ensures (q + 1) * den - num == den - rem
    ensures num - q * den == rem
  {
    assert (q + 1) * den == q * den + den;
  }

  /** CalificacionProm in hundredths: CalificacionTotal / PJ rounded to two
      decimals (app.py:77). A row without matches has no average; it counts
      as 0 here, and no ledger holds one. */
  function AverageHundredths(r: Row): (v: nat)
    ensures r.played > 0 ==> 2 * (v * r.played - 10 * r.ratingTenths) <= r.played
    ensures r.played > 0 ==> 2 * (10 * r.ratingTenths - v * r.played) <= r.played
  {
    if r.played == 0 then 0 else RoundHalfEven(10 * r.ratingTenths, r.played)
  }

  lemma MulAtLeast(a: nat, b: nat, c: nat)
    requires a <= b
    ensures a * c <= b * c
  {
    assert b * c == a * c + (b - a) * c;
  }

  /** An average rating stays on the 0.00 .. 9.90 scale of a single rating. */
  lemma AverageBounded(r: Row)
    requires r.played >= 1 && r.ratingTenths <= 99 * r.played
    ensures AverageHundredths(r) <= 990
  {
    var v, p := AverageHundredths(r), r.played;
    if v > 990 {
      MulAtLeast(991, v, p);
      assert false;
    }
  }

  /** Four matches worth 30.0 rating points average 7.50; three worth 22.0
      average 7.33. */
  lemma AverageExample()
    ensures AverageHundredths(Row("A", 4, 0, 0, 300)) == 750
    ensures AverageHundredths(Row("A", 3, 0, 0, 220)) == 733
  {
  }

  /** The ranking columns: goals (app.py:90), assists (app.py:93) or the
      average rating (app.py:96). */
  datatype Metric = Goals | Assists | Mvp

  /** A row of a ranking view: Nombre, PJ and the ranked column. */
  datatype Entry = Entry(name: string, played: nat, value: nat)

  function Column(r: Row, m: Metric): Entry {
    Entry(r.name, r.played, match m case Goals => r.goals case Assists => r.assists case Mvp => AverageHundredths(r))
  }

  /** `filtro_df[['Nombre', 'PJ', column]]` */
  function Project(rows: seq<Row>, m: Metric): seq<Entry> {
    seq(|rows|, k requires 0 <= k < |rows| => Column(rows[k], m))
  }

  predicate NonIncreasing(es: seq<Entry>) {
    forall i, j :: 0 <= i < j < |es| ==> es[i].value >= es[j].value
  }

  /** Putting `head` in front of a sorted `tail` keeps it sorted when `head`
      is at least the first value of `tail`. */
  lemma ConsSorted(head: Entry, tail: seq<Entry>)
    requires NonIncreasing(tail)
    requires tail == [] || head.value >= tail[0].value
    ensures NonIncreasing([head] + tail)
  {
    var r := [head] + tail;
    forall i, j | 0 <= i < j < |r| ensures r[i].value >= r[j].value {
      if i == 0 {
        assert r[j] == tail[j - 1];
        assert tail[0].value >= tail[j - 1].value || j == 1;
      } else {
        assert r[i] == tail[i - 1] && r[j] == tail[j - 1];
      }
    }
  }

  function Insert(e: Entry, es: seq<Entry>): (r: seq<Entry>)
    requires NonIncreasing(es)
    ensures NonIncreasing(r)
    ensures multiset(r) == multiset(es) + multiset{e}
    ensures r[0] == e || (es != [] && r[0] == es[0])
    decreases |es|
  {
    if es == [] || e.value >= es[0].value then
      ConsSorted(e, es);
      [e] + es
    else
      var head, rest := es[0], es[1..];
      assert es == [head] + rest;
      assert NonIncreasing(rest) by {
        forall i, j | 0 <= i < j < |rest| ensures rest[i].value >= rest[j].value {
          assert rest[i] == es[i + 1] && rest[j] == es[j + 1];
        }
      }
      var tail := Insert(e, rest);
      assert rest != [] ==> head.value >= rest[0].value by {
        if rest != [] { assert rest[0] == es[1]; }
      }
      ConsSorted(head, tail);
      [head] + tail
  }

  /** `sort_values(by=column, ascending=False)`: a permutation of the view,
      highest value first. Where tied rows land is not specified. */
  function SortDesc(es: seq<Entry>): (r: seq<Entry>)
    ensures NonIncreasing(r)
    ensures multiset(r) == multiset(es)
    decreases |es|
  {
    if es == [] then []
    else
      assert es == [es[0]] + es[1..];
      Insert(es[0], SortDesc(es[1..]))
  }

  /** A ranking view of the dashboard (app.py:85-93). */
  function Ranking(rows: seq<Row>, minPlayed: int, m: Metric): seq<Entry> {
    SortDesc(Project(AtLeast(rows, minPlayed), m))
  }

  /** A row is in the filtered view exactly when it is a row of the ledger
      with at least `minPlayed` matches. */
  lemma AtLeastMember(rows: seq<Row>, minPlayed: int, x: Row)
    ensures x in AtLeast(rows, minPlayed) <==> x in rows && x.played >= minPlayed
  {
    var kept := AtLeast(rows, minPlayed);
    assert x in kept <==> x in multiset(kept);
    assert x in rows <==> x in multiset(rows);
  }

  /** An entry is in a projected view exactly when some row projects to it. */
  lemma ProjectMember(rows: seq<Row>, m: Metric, e: Entry)
    ensures e in Project(rows, m) <==> exists k :: 0 <= k < |rows| && e == Column(rows[k], m)
  {
    var view := Project(rows, m);
    if e in view {
      var j :| 0 <= j < |view| && view[j] == e;
    }
    if k :| 0 <= k < |rows| && e == Column(rows[k], m) {
      assert view[k] == e;
    }
  }

  /** Sorting neither adds nor drops an entry. */
  lemma SortDescMember(es: seq<Entry>, e: Entry)
    ensures e in SortDesc(es) <==> e in es
  {
    var sorted := SortDesc(es);
    assert e in sorted <==> e in multiset(sorted);
    assert e in es <==> e in multiset(es);
  }

  /** The filtered rows projected to a view hold the entry exactly when some
      row with at least `minPlayed` matches projects to it. */
  lemma FilteredViewMember(rows: seq<Row>, minPlayed: int, m: Metric, e: Entry)
    ensures e in Project(AtLeast(rows, minPlayed), m) <==>
            exists k :: 0 <= k < |rows| && rows[k].played >= minPlayed && e == Column(rows[k], m)
  {
    var kept := AtLeast(rows, minPlayed);
    ProjectMember(kept, m, e);
    if j :| 0 <= j < |kept| && e == Column(kept[j], m) {
      AtLeastMember(rows, minPlayed, kept[j]);
      var k :| 0 <= k < |rows| && rows[k] == kept[j];
      assert rows[k].played >= minPlayed && e == Column(rows[k], m);
    }
    if k :| 0 <= k < |rows| && rows[k].played >= minPlayed && e == Column(rows[k], m) {
      AtLeastMember(rows, minPlayed, rows[k]);
      var j :| 0 <= j < |kept| && kept[j] == rows[k];
      assert e == Column(kept[j], m);
    }
  }

  /** An entry is ranked exactly when some row with at least `minPlayed`
      matches projects to it. */
  lemma RankingMember(rows: seq<Row>, minPlayed: int, m: Metric, e: Entry)
    ensures e in Ranking(rows, minPlayed, m) <==>
            exists k :: 0 <= k < |rows| && rows[k].played >= minPlayed && e == Column(rows[k], m)
  {
    SortDescMember(Project(AtLeast(rows, minPlayed), m), e);
    FilteredViewMember(rows, minPlayed, m, e);
  }

  /** A ranking is sorted highest first, and it holds exactly the ranked
      columns of the rows that have played at least `minPlayed` matches,
      each as often as the filtered view does. */
  lemma RankingSpec(rows: seq<Row>, minPlayed: int, m: Metric)
    ensures NonIncreasing(Ranking(rows, minPlayed, m))
    ensures multiset(Ranking(rows, minPlayed, m)) == multiset(Project(AtLeast(rows, minPlayed), m))
    ensures |Ranking(rows, minPlayed, m)| == |AtLeast(rows, minPlayed)|
    ensures forall e :: e in Ranking(rows, minPlayed, m) <==>
              exists k :: 0 <= k < |rows| && rows[k].played >= minPlayed && e == Column(rows[k], m)
  {
    var view := Project(AtLeast(rows, minPlayed), m);
    var ranked := SortDesc(view);
    assert |ranked| == |multiset(ranked)| == |multiset(view)| == |view|;
    forall e ensures e in ranked <==> exists k :: 0 <= k < |rows| && rows[k].played >= minPlayed && e == Column(rows[k], m) {
      RankingMember(rows, minPlayed, m, e);
    }
  }

  /** Every setting of the slider, from 1 to the largest PJ, shows at least
      one player. */
  lemma RankingNonEmpty(rows: seq<Row>, minPlayed: int, m: Metric)
    requires rows != []
    requires minPlayed <= MaxPlayed(rows)
    ensures Ranking(rows, minPlayed, m) != []
  {
    var k :| 0 <= k < |rows| && rows[k].played == MaxPlayed(rows);
    RankingSpec(rows, minPlayed, m);
    assert Column(rows[k], m) in Ranking(rows, minPlayed, m);
  }

  /** What the dashboard shows below the upload area (app.py:75-96): only a
      hint for an empty ledger, otherwise the headline totals, the slider's
      upper end and the chosen ranking. */
  datatype Board = Hint | Board(summary: Summary, maxSlider: nat, ranking: seq<Entry>)

  function Dashboard(rows: seq<Row>, minPlayed: int, m: Metric): (b: Board)
    ensures b.Hint? <==> rows == []
    ensures b.Board? ==> b.summary == SummaryOf(rows) && b.ranking == Ranking(rows, minPlayed, m)
    ensures b.Board? ==> forall k :: 0 <= k < |rows| ==> rows[k].played <= b.maxSlider
    ensures b.Board? && minPlayed <= b.maxSlider ==> b.ranking != []
  {
    if rows == [] then Hint
    else
      var b := Board(SummaryOf(rows), MaxPlayed(rows), Ranking(rows, minPlayed, m));
      assert minPlayed <= b.maxSlider ==> b.ranking != [] by {
        if minPlayed <= b.maxSlider {
          RankingNonEmpty(rows, minPlayed, m);
        }
      }
      b
  }

  /** The threshold example: with PJ values 1, 2 and 3 and a minimum of 2,
      the first row is dropped and the other two are kept. */
  lemma ThresholdExample()
    ensures AtLeast([Row("A", 1, 0, 0, 0), Row("B", 2, 0, 0, 0), Row("C", 3, 0, 0, 0)], 2)
         == [Row("B", 2, 0, 0, 0), Row("C", 3, 0, 0, 0)]
  {
    var rows := [Row("A", 1, 0, 0, 0), Row("B", 2, 0, 0, 0), Row("C", 3, 0, 0, 0)];
    assert rows[1..] == [Row("B", 2, 0, 0, 0), Row("C", 3, 0, 0, 0)];
    assert rows[1..][1..] == [Row("C", 3, 0, 0, 0)];
    assert rows[1..][1..][1..] == [];
  }

  /** The goal-ranking example: of A (5 goals), B (9) and C (5), B leads. */
  lemma GoalRankingExample()
    ensures var r := Ranking([Row("A", 1, 5, 0, 0), Row("B", 1, 9, 0, 0), Row("C", 1, 5, 0, 0)], 1, Goals);
            |r| == 3 && r[0] == Entry("B", 1, 9)
  {
    var rows := [Row("A", 1, 5, 0, 0), Row("B", 1, 9, 0, 0), Row("C", 1, 5, 0, 0)];
    assert WellFormed(rows);
    AtLeastOne(rows);
    GoalViewExample();
    GoalSortExample();
  }

  lemma GoalViewExample()
    ensures Project([Row("A", 1, 5, 0, 0), Row("B", 1, 9, 0, 0), Row("C", 1, 5, 0, 0)], Goals)
         == [Entry("A", 1, 5), Entry("B", 1, 9), Entry("C", 1, 5)]
  {
  }

  lemma GoalSortExample()
    ensures var r := SortDesc([Entry("A", 1, 5), Entry("B", 1, 9), Entry("C", 1, 5)]);
            |r| == 3 && r[0] == Entry("B", 1, 9)
  {
    var a, b, c := Entry("A", 1, 5), Entry("B", 1, 9), Entry("C", 1, 5);
    var view := [a, b, c];
    assert view[1..] == [b, c] && view[1..][1..] == [c];
    assert SortDesc([c]) == [c];
    assert SortDesc([b, c]) == [b, c];
    assert Insert(a, [b, c]) == [b] + Insert(a, [c]);
  }
}
