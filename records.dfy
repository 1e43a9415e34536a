/**
 * The data model shared by the extractor, the ledger and the queries.
 *
 * One `Row` type serves both for an observation extracted from a screenshot
 * line and for a ledger entry: the ledger appends an unseen player's
 * observation row as it is, so the two carry the same five columns
 * (Nombre, PJ, Goles, Asistencias, CalificacionTotal).
 * Ratings are kept as whole tenths, so 7.5 is 75.
 */
module Records {

  datatype Option<T> = None | Some(value: T)

  /** One row of the statistics table. */
  datatype Row = Row(
    name: string,       // Nombre
    played: nat,        // PJ: matches played
    goals: nat,         // Goles
    assists: nat,       // Asistencias
    ratingTenths: nat   // CalificacionTotal, in tenths of a rating point
  )

  /** The character class `[A-Za-z0-9_.-]` of a player name. */
  predicate IsNameChar(c: char) {
    ('A' <= c <= 'Z') || ('a' <= c <= 'z') || ('0' <= c <= '9') || c == '_' || c == '.' || c == '-'
  }

  /** `\d`, restricted to the ASCII digits. */
  predicate IsDigit(c: char) {
    '0' <= c <= '9'
  }

  /** `\s` of a Python `str` pattern: the characters for which `str.isspace` holds. */
  predicate IsSpace(c: char) {
    var n := c as int;
    (9 <= n <= 13) || (28 <= n <= 32) || n == 0x85 || n == 0xA0 || n == 0x1680
    || (0x2000 <= n <= 0x200A) || n == 0x2028 || n == 0x2029 || n == 0x202F
    || n == 0x205F || n == 0x3000
  }

  /** The three character classes of the grammar do not overlap where it matters. */
  lemma ClassesDisjoint(c: char)
    ensures IsSpace(c) ==> !IsNameChar(c) && !IsDigit(c)
    ensures IsDigit(c) ==> IsNameChar(c)
  {
  }

  /** A name as the grammar accepts it: a non-empty run of name characters. */
  predicate ValidName(s: string) {
    |s| > 0 && forall k :: 0 <= k < |s| ==> IsNameChar(s[k])
  }

  /** A freshly extracted observation: one match played, a well-formed name
      and a rating of one digit, a dot and one digit (0.0 .. 9.9). */
  predicate IsObservation(o: Row) {
    o.played == 1 && ValidName(o.name) && o.ratingTenths <= 99
  }

  predicate AllObservations(batch: seq<Row>) {
    forall k :: 0 <= k < |batch| ==> IsObservation(batch[k])
  }

  /** Column sums of a table: PJ, Goles, Asistencias, CalificacionTotal. */
  datatype Tally = Tally(played: nat, goals: nat, assists: nat, ratingTenths: nat) {
    function Plus(t: Tally): Tally {
      Tally(played + t.played, goals + t.goals, assists + t.assists, ratingTenths + t.ratingTenths)
    }
  }

  const Zero := Tally(0, 0, 0, 0)

  function TallyOf(r: Row): Tally {
    Tally(r.played, r.goals, r.assists, r.ratingTenths)
  }

  /** Column-wise sums over a table. */
  function Totals(rows: seq<Row>): Tally
    decreases |rows|
  {
    if rows == [] then Zero else TallyOf(rows[0]).Plus(Totals(rows[1..]))
  }

  /** Sums distribute over concatenation of tables. */
  lemma {:induction false} TotalsAppend(a: seq<Row>, b: seq<Row>)
    ensures Totals(a + b) == Totals(a).Plus(Totals(b))
    decreases |a|
  {
    if a == [] {
      assert a + b == b;
    } else {
      assert (a + b)[0] == a[0];
      assert (a + b)[1..] == a[1..] + b;
      TotalsAppend(a[1..], b);
      assert Totals(a + b) == TallyOf(a[0]).Plus(Totals(a[1..] + b));
    }
  }

  /** A batch of observations has exactly one match played per row. */
  lemma {:induction false} ObservationsPlayed(batch: seq<Row>)
    requires AllObservations(batch)
    ensures Totals(batch).played == |batch|
    decreases |batch|
  {
    if batch != [] {
      ObservationsPlayed(batch[1..]);
    }
  }

  /** The rows of a table that belong to the player `p`, in table order. */
  function Named(rows: seq<Row>, p: string): (r: seq<Row>)
    ensures |r| <= |rows|
    ensures forall k :: 0 <= k < |r| ==> r[k].name == p
    decreases |rows|
  {
    if rows == [] then []
    else if rows[0].name == p then [rows[0]] + Named(rows[1..], p)
    else Named(rows[1..], p)
  }

  lemma {:induction false} NamedAppend(a: seq<Row>, b: seq<Row>, p: string)
    ensures Named(a + b, p) == Named(a, p) + Named(b, p)
    decreases |a|
  {
    if a == [] {
      assert a + b == b;
    } else {
      assert (a + b)[1..] == a[1..] + b;
      NamedAppend(a[1..], b, p);
    }
  }

  /** The set of player names a table holds. */
  function Names(rows: seq<Row>): set<string> {
    set k | 0 <= k < |rows| :: rows[k].name
  }

  /** No player appears on two rows. */
  predicate UniqueNames(rows: seq<Row>) {
    forall i, j :: 0 <= i < j < |rows| ==> rows[i].name != rows[j].name
  }

  /** With one row per player, a table has as many rows as players. */
  lemma {:induction false} UniqueNamesCount(rows: seq<Row>)
    requires UniqueNames(rows)
    ensures |Names(rows)| == |rows|
    decreases |rows|
  {
    if rows != [] {
      var init, last := rows[..|rows| - 1], rows[|rows| - 1];
      UniqueNamesCount(init);
      assert Names(rows) == Names(init) + {last.name} by {
        forall n | n in Names(rows) ensures n in Names(init) + {last.name} {
          var k :| 0 <= k < |rows| && rows[k].name == n;
          if k < |init| {
            assert init[k].name == n;
          }
        }
      }
      assert last.name !in Names(init);
    }
  }
}
