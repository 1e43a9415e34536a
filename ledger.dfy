/**
 * The aggregator and the ledger it updates (update_stats, app.py:37-47).
 *
 * Each observation of a batch is folded into the table in order. When the
 * player is already on the table, every row with that name gets one more
 * match played and the observation's goals, assists and rating added; when
 * the player is new, the observation row itself is appended.
 *
 * The pure functions MergeRow and MergeAll specify the fold; the class
 * Ledger performs it in place and is proved against them.
 */
module LedgerStore {
  import opened Records

  /** The row of a known player after one more observation (app.py:41-44):
      PJ goes up by one whatever the observation says. */
  function Accumulate(row: Row, o: Row): (r: Row)
    ensures r.name == row.name
    ensures o.played == 1 ==> TallyOf(r) == TallyOf(row).Plus(TallyOf(o))
  {
    Row(row.name, row.played + 1, row.goals + o.goals, row.assists + o.assists,
        row.ratingTenths + o.ratingTenths)
  }

  function AccumulateIf(row: Row, o: Row): Row {
    if row.name == o.name then Accumulate(row, o) else row
  }

  /** The masked update `df.loc[df['Nombre'] == name, col] += value`. */
  function UpdateNamed(rows: seq<Row>, o: Row): (r: seq<Row>)
    ensures |r| == |rows|
    ensures forall k :: 0 <= k < |rows| ==> r[k].name == rows[k].name
    ensures forall k :: 0 <= k < |rows| && rows[k].name != o.name ==> r[k] == rows[k]
  {
    seq(|rows|, k requires 0 <= k < |rows| => AccumulateIf(rows[k], o))
  }

  /** `name in df['Nombre'].values` */
  predicate HasPlayer(rows: seq<Row>, name: string) {
    exists k :: 0 <= k < |rows| && rows[k].name == name
  }

  /** One observation merged into the table (app.py:40-46). */
  function MergeRow(rows: seq<Row>, o: Row): (r: seq<Row>)
    ensures |r| == if HasPlayer(rows, o.name) then |rows| else |rows| + 1
    ensures forall k :: 0 <= k < |rows| ==> r[k].name == rows[k].name
  {
    if HasPlayer(rows, o.name) then UpdateNamed(rows, o) else rows + [o]
  }

  /** A batch merged into the table, observation by observation (app.py:39-46). */
  function MergeAll(rows: seq<Row>, batch: seq<Row>): (r: seq<Row>)
    ensures |rows| <= |r| <= |rows| + |batch|
    ensures forall k :: 0 <= k < |rows| ==> r[k].name == rows[k].name
    decreases |batch|
  {
    if batch == [] then rows
    else MergeRow(MergeAll(rows, batch[..|batch| - 1]), batch[|batch| - 1])
  }

  /** The ledger invariant: one row per player, every row has played at least
      once, and its rating total is that of ratings of at most 9.9 each. */
  predicate WellFormed(rows: seq<Row>) {
    && UniqueNames(rows)
    && forall k :: 0 <= k < |rows| ==> 1 <= rows[k].played && rows[k].ratingTenths <= 99 * rows[k].played
  }

  /** Merging a known player's observation changes that player's row only:
      one more match, and the goals, assists and rating added. */
  lemma MergeExisting(rows: seq<Row>, o: Row, k: nat)
    requires UniqueNames(rows)
    requires k < |rows| && rows[k].name == o.name
    ensures |MergeRow(rows, o)| == |rows|
    ensures MergeRow(rows, o)[k] == Row(rows[k].name, rows[k].played + 1, rows[k].goals + o.goals,
                                        rows[k].assists + o.assists, rows[k].ratingTenths + o.ratingTenths)
    ensures forall j :: 0 <= j < |rows| && j != k ==> MergeRow(rows, o)[j] == rows[j]
  {
  }

  /** Merging a new player's observation appends exactly that row. */
  lemma MergeAbsent(rows: seq<Row>, o: Row)
    requires !HasPlayer(rows, o.name)
    ensures MergeRow(rows, o) == rows + [o]
  {
  }

  /** With one row per player, the masked update touches one row. */
  lemma UpdateNamedAt(rows: seq<Row>, o: Row, k: nat)
    requires UniqueNames(rows)
    requires k < |rows| && rows[k].name == o.name
    ensures UpdateNamed(rows, o) == rows[k := Accumulate(rows[k], o)]
  {
  }

  lemma MergeRowUnique(rows: seq<Row>, o: Row)
    requires UniqueNames(rows)
    ensures UniqueNames(MergeRow(rows, o))
  {
  }

  lemma {:induction false} MergeAllUnique(rows: seq<Row>, batch: seq<Row>)
    requires UniqueNames(rows)
    ensures UniqueNames(MergeAll(rows, batch))
    decreases |batch|
  {
    if batch != [] {
      MergeAllUnique(rows, batch[..|batch| - 1]);
      MergeRowUnique(MergeAll(rows, batch[..|batch| - 1]), batch[|batch| - 1]);
    }
  }

  /** Merging an observation keeps the ledger invariant. */
  lemma MergeRowWellFormed(rows: seq<Row>, o: Row)
    requires WellFormed(rows)
    requires IsObservation(o)
    ensures WellFormed(MergeRow(rows, o))
  {
    MergeRowUnique(rows, o);
  }

  /** Merging a batch of observations keeps the ledger invariant. */
  lemma {:induction false} MergeAllWellFormed(rows: seq<Row>, batch: seq<Row>)
    requires WellFormed(rows)
    requires AllObservations(batch)
    ensures WellFormed(MergeAll(rows, batch))
    decreases |batch|
  {
    if batch != [] {
      var init := batch[..|batch| - 1];
      assert AllObservations(init);
      MergeAllWellFormed(rows, init);
      MergeRowWellFormed(MergeAll(rows, init), batch[|batch| - 1]);
    }
  }

  /** Merging batch `a + b` is merging `a`, then `b`. */
  lemma {:induction false} MergeAllAppend(rows: seq<Row>, a: seq<Row>, b: seq<Row>)
    ensures MergeAll(rows, a + b) == MergeAll(MergeAll(rows, a), b)
    decreases |b|
  {
    if b == [] {
      assert a + b == a;
    } else {
      var b' := b[..|b| - 1];
      assert (a + b)[..|a + b| - 1] == a + b';
      assert (a + b)[|a + b| - 1] == b[|b| - 1];
      MergeAllAppend(rows, a, b');
    }
  }

  /** Two observations of the same new player in one batch end up on one
      row: the second is added to the row the first one created. */
  lemma SameNewPlayerTwice(rows: seq<Row>, o1: Row, o2: Row)
    requires !HasPlayer(rows, o1.name)
    requires o2.name == o1.name
    ensures MergeAll(rows, [o1, o2]) == rows + [Accumulate(o1, o2)]
  {
    assert [o1, o2][..1] == [o1];
    assert [o1][..0] == [];
    var once := rows + [o1];
    assert MergeAll(rows, [o1]) == once;
    assert once[|rows|].name == o2.name;
    UpdateNamedEqual(once, o2);
  }

  lemma UpdateNamedEqual(rows: seq<Row>, o: Row)
    requires |rows| > 0 && rows[|rows| - 1].name == o.name
    requires forall j :: 0 <= j < |rows| - 1 ==> rows[j].name != o.name
    ensures MergeRow(rows, o) == rows[..|rows| - 1] + [Accumulate(rows[|rows| - 1], o)]
  {
  }

  /** Splitting a table around row `k`. */
  lemma SplitAt(rows: seq<Row>, k: nat, x: Row)
    requires k < |rows|
    ensures rows == rows[..k] + [rows[k]] + rows[k + 1..]
    ensures rows[k := x] == rows[..k] + [x] + rows[k + 1..]
  {
  }

  lemma TotalsSplit(a: seq<Row>, y: Row, b: seq<Row>)
    ensures Totals(a + [y] + b) == Totals(a).Plus(TallyOf(y)).Plus(Totals(b))
  {
    TotalsAppend(a + [y], b);
    TotalsAppend(a, [y]);
    assert Totals([y]) == TallyOf(y);
  }

  /** Column sums after one merge: the observation's values are added, and
      PJ grows by one both for a known and for a new player. */
  lemma MergeRowTotals(rows: seq<Row>, o: Row)
    requires UniqueNames(rows)
    requires o.played == 1
    ensures Totals(MergeRow(rows, o)) == Totals(rows).Plus(TallyOf(o))
  {
    if HasPlayer(rows, o.name) {
      var k :| 0 <= k < |rows| && rows[k].name == o.name;
      var x := Accumulate(rows[k], o);
      UpdateNamedAt(rows, o, k);
      SplitAt(rows, k, x);
      var before, after := rows[..k], rows[k + 1..];
      TotalsSplit(before, rows[k], after);
      TotalsSplit(before, x, after);
      assert TallyOf(x) == TallyOf(rows[k]).Plus(TallyOf(o));
    } else {
      TotalsSplit(rows, o, []);
      assert rows + [o] + [] == rows + [o];
    }
  }

  /** Conservation: after a batch of observations the column sums have grown
      by the batch's sums. */
  lemma {:induction false} MergeAllTotals(rows: seq<Row>, batch: seq<Row>)
    requires UniqueNames(rows)
    requires AllObservations(batch)
    ensures Totals(MergeAll(rows, batch)) == Totals(rows).Plus(Totals(batch))
    decreases |batch|
  {
    if batch == [] {
    } else {
      var init, last := batch[..|batch| - 1], batch[|batch| - 1];
      assert batch == init + [last];
      var mid := MergeAll(rows, init);
      assert MergeAll(rows, batch) == MergeRow(mid, last);
      assert AllObservations(init);
      MergeAllTotals(rows, init);
      MergeAllUnique(rows, init);
      MergeRowTotals(mid, last);
      TotalsAppend(init, [last]);
      assert Totals([last]) == TallyOf(last);
      PlusAssoc(Totals(rows), Totals(init), TallyOf(last));
    }
  }

  /** After a batch of N observations the ledger counts N more matches played. */
  lemma MergeAllPlayed(rows: seq<Row>, batch: seq<Row>)
    requires UniqueNames(rows)
    requires AllObservations(batch)
    ensures Totals(MergeAll(rows, batch)).played == Totals(rows).played + |batch|
  {
    MergeAllTotals(rows, batch);
    ObservationsPlayed(batch);
  }

  /** The tally of one row if it belongs to `p`, nothing otherwise. */
  function TallyIfNamed(r: Row, p: string): Tally {
    if r.name == p then TallyOf(r) else Zero
  }

  lemma NamedSingle(y: Row, p: string)
    ensures Totals(Named([y], p)) == TallyIfNamed(y, p)
  {
    assert [y][1..] == [];
    if y.name == p {
      assert Named([y], p) == [y];
      assert Totals([y]) == TallyOf(y);
    } else {
      assert Named([y], p) == [];
    }
  }

  lemma NamedSplit(a: seq<Row>, y: Row, b: seq<Row>, p: string)
    ensures Totals(Named(a + [y] + b, p))
         == Totals(Named(a, p)).Plus(TallyIfNamed(y, p)).Plus(Totals(Named(b, p)))
  {
    NamedAppend(a + [y], b, p);
    NamedAppend(a, [y], p);
    NamedSingle(y, p);
    var na, ny, nb := Named(a, p), Named([y], p), Named(b, p);
    assert Totals(ny) == TallyIfNamed(y, p);
    TotalsAppend(na + ny, nb);
    TotalsAppend(na, ny);
  }

  lemma AccumulateNamed(row: Row, o: Row, p: string)
    requires row.name == o.name && o.played == 1
    ensures TallyIfNamed(Accumulate(row, o), p) == TallyIfNamed(row, p).Plus(TallyIfNamed(o, p))
  {
    if row.name == p {
      assert TallyOf(Accumulate(row, o)) == TallyOf(row).Plus(TallyOf(o));
    } else {
      PlusZero(Zero);
    }
  }

  lemma PlusZero(t: Tally)
    ensures t.Plus(Zero) == t
  {
  }

  lemma PlusShuffle(a: Tally, b: Tally, c: Tally, d: Tally)
    ensures a.Plus(b.Plus(d)).Plus(c) == a.Plus(b).Plus(c).Plus(d)
  {
  }

  /** One merge as seen by a single player `p`: p's sums grow by the
      observation's values when it is p's, and stay put otherwise. */
  lemma MergeRowNamed(rows: seq<Row>, o: Row, p: string)
    requires UniqueNames(rows)
    requires o.played == 1
    ensures Totals(Named(MergeRow(rows, o), p)) == Totals(Named(rows, p)).Plus(TallyIfNamed(o, p))
  {
    var merged := MergeRow(rows, o);
    if HasPlayer(rows, o.name) {
      var k :| 0 <= k < |rows| && rows[k].name == o.name;
      var x := Accumulate(rows[k], o);
      UpdateNamedAt(rows, o, k);
      SplitAt(rows, k, x);
      var before, after := rows[..k], rows[k + 1..];
      assert merged == before + [x] + after;
      NamedSplit(before, rows[k], after, p);
      NamedSplit(before, x, after, p);
      AccumulateNamed(rows[k], o, p);
      var ta, tb, tc, td := Totals(Named(before, p)), TallyIfNamed(rows[k], p), Totals(Named(after, p)), TallyIfNamed(o, p);
      assert Totals(Named(merged, p)) == ta.Plus(tb.Plus(td)).Plus(tc);
      assert Totals(Named(rows, p)) == ta.Plus(tb).Plus(tc);
      PlusShuffle(ta, tb, tc, td);
      assert Totals(Named(merged, p)) == Totals(Named(rows, p)).Plus(td);
    } else {
      assert merged == rows + [o] + [];
      NamedSplit(rows, o, [], p);
      var ta, td := Totals(Named(rows, p)), TallyIfNamed(o, p);
      assert Totals(Named([], p)) == Zero;
      PlusZero(ta.Plus(td));
    }
  }

  lemma PlusAssoc(a: Tally, b: Tally, c: Tally)
    ensures a.Plus(b).Plus(c) == a.Plus(b.Plus(c))
  {
  }

  lemma PlusSwap(a: Tally, b: Tally, c: Tally)
    ensures a.Plus(b).Plus(c) == a.Plus(c).Plus(b)
  {
  }

  /** Conservation per player: the change in p's sums over a batch is the
      sum of the batch's observations of p. */
  lemma {:induction false} MergeAllNamed(rows: seq<Row>, batch: seq<Row>, p: string)
    requires UniqueNames(rows)
    requires AllObservations(batch)
    ensures Totals(Named(MergeAll(rows, batch), p)) == Totals(Named(rows, p)).Plus(Totals(Named(batch, p)))
    decreases |batch|
  {
    if batch == [] {
      assert Totals(Named(batch, p)) == Zero;
      PlusZero(Totals(Named(rows, p)));
    } else {
      var init, last := batch[..|batch| - 1], batch[|batch| - 1];
      assert batch == init + [last];
      var before := MergeAll(rows, init);
      assert AllObservations(init);
      MergeAllNamed(rows, init, p);
      MergeAllUnique(rows, init);
      MergeRowNamed(before, last, p);
      var r, i, l := Totals(Named(rows, p)), Totals(Named(init, p)), TallyIfNamed(last, p);
      assert Totals(Named(MergeAll(rows, batch), p)) == r.Plus(i).Plus(l);
      NamedAppend(init, [last], p);
      NamedSingle(last, p);
      TotalsAppend(Named(init, p), Named([last], p));
      assert Totals(Named(batch, p)) == i.Plus(l);
      PlusAssoc(r, i, l);
    }
  }

  /** The order in which two batches are merged does not change any player's
      sums (the order of new rows in the table can differ). */
  lemma MergeOrderIndependent(rows: seq<Row>, b1: seq<Row>, b2: seq<Row>, p: string)
    requires UniqueNames(rows)
    requires AllObservations(b1) && AllObservations(b2)
    ensures Totals(Named(MergeAll(MergeAll(rows, b1), b2), p))
         == Totals(Named(MergeAll(MergeAll(rows, b2), b1), p))
  {
    var r, t1, t2 := Totals(Named(rows, p)), Totals(Named(b1, p)), Totals(Named(b2, p));
    MergeAllNamed(rows, b1, p);
    MergeAllUnique(rows, b1);
    MergeAllNamed(MergeAll(rows, b1), b2, p);
    assert Totals(Named(MergeAll(MergeAll(rows, b1), b2), p)) == r.Plus(t1).Plus(t2);
    MergeAllNamed(rows, b2, p);
    MergeAllUnique(rows, b2);
    MergeAllNamed(MergeAll(rows, b2), b1, p);
    assert Totals(Named(MergeAll(MergeAll(rows, b2), b1), p)) == r.Plus(t2).Plus(t1);
    PlusSwap(r, t1, t2);
  }

  lemma HasPlayerNames(rows: seq<Row>, name: string)
    ensures HasPlayer(rows, name) <==> name in Names(rows)
  {
  }

  /** One merge adds the observation's player to the names on the table. */
  lemma MergeRowNames(rows: seq<Row>, o: Row)
    ensures Names(MergeRow(rows, o)) == Names(rows) + {o.name}
  {
    HasPlayerNames(rows, o.name);
    var merged := MergeRow(rows, o);
    if HasPlayer(rows, o.name) {
      assert forall k :: 0 <= k < |rows| ==> merged[k].name == rows[k].name;
      forall n | n in Names(merged) ensures n in Names(rows) {
        var k :| 0 <= k < |merged| && merged[k].name == n;
        assert rows[k].name == n;
      }
      forall n | n in Names(rows) ensures n in Names(merged) {
        var k :| 0 <= k < |rows| && rows[k].name == n;
        assert merged[k].name == n;
      }
    } else {
      forall n | n in Names(merged) ensures n in Names(rows) + {o.name} {
        var k :| 0 <= k < |merged| && merged[k].name == n;
        if k < |rows| {
          assert rows[k].name == n;
        }
      }
      forall n | n in Names(rows) + {o.name} ensures n in Names(merged) {
        if n == o.name {
          assert merged[|rows|].name == n;
        } else {
          var k :| 0 <= k < |rows| && rows[k].name == n;
          assert merged[k].name == n;
        }
      }
    }
  }

  /** The players on the table after a batch are those before it and those
      of the batch. */
  lemma {:induction false} MergeAllNames(rows: seq<Row>, batch: seq<Row>)
    ensures Names(MergeAll(rows, batch)) == Names(rows) + Names(batch)
    decreases |batch|
  {
    if batch == [] {
      assert Names(batch) == {};
    } else {
      var init, last := batch[..|batch| - 1], batch[|batch| - 1];
      MergeAllNames(rows, init);
      MergeRowNames(MergeAll(rows, init), last);
      forall n | n in Names(batch) ensures n in Names(init) + {last.name} {
        var k :| 0 <= k < |batch| && batch[k].name == n;
        if k < |init| {
          assert init[k].name == n;
        }
      }
      forall n | n in Names(init) + {last.name} ensures n in Names(batch) {
        if n == last.name {
          assert batch[|batch| - 1].name == n;
        } else {
          var k :| 0 <= k < |init| && init[k].name == n;
          assert batch[k].name == n;
        }
      }
    }
  }

  /**
   * The statistics table (the DataFrame read from and written back to the
   * ledger file), updated in place.
   */
  class Ledger {
    var rows: seq<Row>

    ghost predicate Valid()
      reads this
    {
      WellFormed(rows)
    }

    /** A new ledger holds the header only (app.py:11-13). */
    constructor ()
      ensures rows == [] && Valid()
    {
      rows := [];
    }

    /** `name in df['Nombre'].values` (app.py:40). */
    method Contains(name: string) returns (found: bool)
      ensures found <==> HasPlayer(rows, name)
    {
      found := false;
      var k := 0;
      while k < |rows|
        invariant 0 <= k <= |rows|
        invariant found <==> exists j :: 0 <= j < k && rows[j].name == name
      {
        if rows[k].name == name {
          found := true;
        }
        k := k + 1;
      }
    }

    /** One observation merged in place (app.py:40-46). */
    method Merge(o: Row)
      modifies this
      ensures rows == MergeRow(old(rows), o)
    {
      var known := Contains(o.name);
      if known {
        var k := 0;
        while k < |rows|
          invariant 0 <= k <= |rows| == |old(rows)|
          invariant forall j :: 0 <= j < k ==> rows[j] == AccumulateIf(old(rows)[j], o)
          invariant forall j :: k <= j < |rows| ==> rows[j] == old(rows)[j]
        {
          if rows[k].name == o.name {
            rows := rows[k := Accumulate(rows[k], o)];
          }
          k := k + 1;
        }
        assert rows == UpdateNamed(old(rows), o);
      } else {
        rows := rows + [o];
      }
    }

    /** update_stats: the batch merged in order (app.py:37-47). */
    method UpdateStats(batch: seq<Row>)
      modifies this
      ensures rows == MergeAll(old(rows), batch)
      ensures old(Valid()) && AllObservations(batch) ==> Valid()
    {
      var i := 0;
      while i < |batch|
        invariant 0 <= i <= |batch|
        invariant rows == MergeAll(old(rows), batch[..i])
      {
        assert batch[..i + 1][..i] == batch[..i];
        Merge(batch[i]);
        i := i + 1;
      }
      assert batch[..i] == batch;
      if old(Valid()) && AllObservations(batch) {
        MergeAllWellFormed(old(rows), batch);
      }
    }
  }
}
