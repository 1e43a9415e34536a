/**
 * The record extractor: each recognised text line is searched for
 *
 *     ([A-Za-z0-9_.-]+)\s+([6-9]\.\d|\d\.\d)\s+(\d+)\s+(\d+)
 *
 * and a line with a match contributes one observation row.
 *
 * The search is written as a scanner over the characters of the line. At a
 * fixed start position every part of the pattern has a forced extent: the
 * name must be followed by whitespace, which is not a name character, so it
 * runs to the end of its run of name characters; the same holds for the
 * whitespace runs and the goals digits; the final `\d+` is greedy. So there
 * is at most one match per start, and the search returns the one at the
 * leftmost start where there is one.
 */
module Extractor {
  import opened Records

  /** Every character of `s[i..j]` is in the class `p`. */
  predicate AllIn(s: string, i: nat, j: nat, p: char -> bool)
    requires i <= j <= |s|
  {
    forall k :: i <= k < j ==> p(s[k])
  }

  /** The end of the longest run of characters of class `p` that starts at `i`. */
  function RunEnd(s: string, i: nat, p: char -> bool): (j: nat)
    requires i <= |s|
    ensures i <= j <= |s|
    ensures AllIn(s, i, j, p)
    ensures j == |s| || !p(s[j])
    decreases |s| - i
  {
    if i < |s| && p(s[i]) then RunEnd(s, i + 1, p) else i
  }

  /** A run that cannot be extended is the one `RunEnd` finds. */
  lemma {:induction false} RunEndUnique(s: string, i: nat, j: nat, p: char -> bool)
    requires i <= j <= |s|
    requires AllIn(s, i, j, p)
    requires j == |s| || !p(s[j])
    ensures RunEnd(s, i, p) == j
    decreases j - i
  {
    if i < j {
      RunEndUnique(s, i + 1, j, p);
    }
  }

  /** The rating group `[6-9]\.\d|\d\.\d` at position `i`, alternatives as written. */
  predicate RatingAt(s: string, i: nat)
    requires i + 3 <= |s|
  {
    || (('6' <= s[i] <= '9') && s[i + 1] == '.' && IsDigit(s[i + 2]))
    || (IsDigit(s[i]) && s[i + 1] == '.' && IsDigit(s[i + 2]))
  }

  /** The first alternative of the rating group is subsumed by the second:
      the group accepts exactly one digit, a dot and one digit. */
  lemma RatingAlternativesCollapse(s: string, i: nat)
    requires i + 3 <= |s|
    ensures RatingAt(s, i) <==> IsDigit(s[i]) && s[i + 1] == '.' && IsDigit(s[i + 2])
  {
  }

  /** Where the four groups of a match lie in a line: the name is
      `[start, nameEnd)`, the rating `[ratingAt, ratingAt + 3)`, goals
      `[goalsAt, goalsEnd)` and assists `[assistsAt, assistsEnd)`. */
  datatype Span = Span(start: nat, nameEnd: nat, ratingAt: nat,
                       goalsAt: nat, goalsEnd: nat, assistsAt: nat, assistsEnd: nat)

  /** `m` is a match of the pattern in `s` as the regular-expression engine
      reports it: every group in place, whitespace runs between them, and the
      trailing `\d+` taken greedily. */
  predicate Fits(s: string, m: Span) {
    && m.start < m.nameEnd < m.ratingAt
    && m.ratingAt + 3 < m.goalsAt < m.goalsEnd < m.assistsAt < m.assistsEnd <= |s|
    && AllIn(s, m.start, m.nameEnd, IsNameChar)
    && AllIn(s, m.nameEnd, m.ratingAt, IsSpace)
    && RatingAt(s, m.ratingAt)
    && AllIn(s, m.ratingAt + 3, m.goalsAt, IsSpace)
    && AllIn(s, m.goalsAt, m.goalsEnd, IsDigit)
    && AllIn(s, m.goalsEnd, m.assistsAt, IsSpace)
    && AllIn(s, m.assistsAt, m.assistsEnd, IsDigit)
    && (m.assistsEnd == |s| || !IsDigit(s[m.assistsEnd]))
  }

  /** `m` is the match `re.search` reports: no match starts further left. */
  ghost predicate LeftmostFit(s: string, m: Span) {
    Fits(s, m) && forall m' :: Fits(s, m') ==> m.start <= m'.start
  }

  /** Try the pattern at start position `i`. */
  function MatchAt(s: string, i: nat): (r: Option<Span>)
    requires i <= |s|
    ensures r.Some? ==> r.value.start == i
  {
    var nameEnd := RunEnd(s, i, IsNameChar);
    if nameEnd == i then None
    else
      var ratingAt := RunEnd(s, nameEnd, IsSpace);
      if ratingAt == nameEnd || ratingAt + 3 > |s| || !RatingAt(s, ratingAt) then None
      else
        var goalsAt := RunEnd(s, ratingAt + 3, IsSpace);
        if goalsAt == ratingAt + 3 then None
        else
          var goalsEnd := RunEnd(s, goalsAt, IsDigit);
          if goalsEnd == goalsAt then None
          else
            var assistsAt := RunEnd(s, goalsEnd, IsSpace);
            if assistsAt == goalsEnd then None
            else
              var assistsEnd := RunEnd(s, assistsAt, IsDigit);
              if assistsEnd == assistsAt then None
              else Some(Span(i, nameEnd, ratingAt, goalsAt, goalsEnd, assistsAt, assistsEnd))
  }

  /** What is found at a position is a match of the pattern. */
  lemma MatchAtSound(s: string, i: nat)
    requires i <= |s|
    ensures MatchAt(s, i).Some? ==> Fits(s, MatchAt(s, i).value)
  {
  }

  /** Every match is found at its start position, and it is the only one there. */
  lemma MatchAtComplete(s: string, m: Span)
    requires Fits(s, m)
    ensures MatchAt(s, m.start) == Some(m)
  {
    ClassesDisjoint(s[m.nameEnd]);
    RunEndUnique(s, m.start, m.nameEnd, IsNameChar);
    ClassesDisjoint(s[m.ratingAt]);
    RunEndUnique(s, m.nameEnd, m.ratingAt, IsSpace);
    ClassesDisjoint(s[m.goalsAt]);
    RunEndUnique(s, m.ratingAt + 3, m.goalsAt, IsSpace);
    ClassesDisjoint(s[m.goalsEnd]);
    RunEndUnique(s, m.goalsAt, m.goalsEnd, IsDigit);
    ClassesDisjoint(s[m.assistsAt]);
    RunEndUnique(s, m.goalsEnd, m.assistsAt, IsSpace);
    RunEndUnique(s, m.assistsAt, m.assistsEnd, IsDigit);
  }

  /** `re.search` from position `i`: the first start at which the pattern matches. */
  function Search(s: string, i: nat): (r: Option<Span>)
    requires i <= |s|
    ensures r.Some? ==> i <= r.value.start
    decreases |s| - i
  {
    if i == |s| then None
    else match MatchAt(s, i)
      case Some(m) => Some(m)
      case None => Search(s, i + 1)
  }

  /** What the search finds is a match of the pattern. */
  lemma {:induction false} SearchSound(s: string, i: nat)
    requires i <= |s|
    ensures Search(s, i).Some? ==> Fits(s, Search(s, i).value)
    decreases |s| - i
  {
    if i < |s| {
      if MatchAt(s, i).Some? {
        MatchAtSound(s, i);
      } else {
        SearchSound(s, i + 1);
      }
    }
  }

  /** A search from `i` stops at the latest at a position `j` where the
      pattern matches. */
  lemma {:induction false} SearchReaches(s: string, i: nat, j: nat)
    requires i <= j < |s|
    requires MatchAt(s, j).Some?
    ensures Search(s, i).Some? && Search(s, i).value.start <= j
    decreases j - i
  {
    if MatchAt(s, i).None? {
      SearchReaches(s, i + 1, j);
    }
  }

  /** No match starts to the left of the one the search returns, and the
      search finds something whenever there is a match at or after `i`. */
  lemma SearchLeftmost(s: string, i: nat, m: Span)
    requires i <= m.start
    requires Fits(s, m)
    ensures Search(s, i).Some? && Search(s, i).value.start <= m.start
  {
    MatchAtComplete(s, m);
    SearchReaches(s, i, m.start);
  }

  /** A match preceded only by characters that cannot begin a name is the
      one the search reports. */
  lemma SearchFindsFirst(s: string, m: Span)
    requires Fits(s, m)
    requires forall k :: 0 <= k < m.start ==> !IsNameChar(s[k])
    ensures Search(s, 0) == Some(m)
  {
    SearchLeftmost(s, 0, m);
    SearchSound(s, 0);
    var found := Search(s, 0).value;
    assert AllIn(s, found.start, found.nameEnd, IsNameChar);
    assert IsNameChar(s[found.start]);
    assert found.start == m.start;
    MatchAtComplete(s, found);
    MatchAtComplete(s, m);
  }

  /** The value of one decimal digit character. */
  function DigitValue(c: char): (d: nat)
    ensures IsDigit(c) ==> d < 10
  {
    if IsDigit(c) then (c as int) - ('0' as int) else 0
  }

  /** The numeric value of a run of decimal digits, most significant first,
      as `int()` reads it. */
  function DigitsValue(s: string): nat
    decreases |s|
  {
    if s == [] then 0 else 10 * DigitsValue(s[..|s| - 1]) + DigitValue(s[|s| - 1])
  }

  /** The observation row built from the four groups of a match (app.py:24-34). */
  function RowOf(s: string, m: Span): (r: Row)
    requires Fits(s, m)
    ensures IsObservation(r)
    ensures r.name == s[m.start..m.nameEnd]
    ensures r.ratingTenths == 10 * DigitValue(s[m.ratingAt]) + DigitValue(s[m.ratingAt + 2])
  {
    var name := s[m.start..m.nameEnd];
    assert forall k :: 0 <= k < |name| ==> name[k] == s[m.start + k];
    Row(name, 1,
        DigitsValue(s[m.goalsAt..m.goalsEnd]),
        DigitsValue(s[m.assistsAt..m.assistsEnd]),
        10 * DigitValue(s[m.ratingAt]) + DigitValue(s[m.ratingAt + 2]))
  }

  /** One line: the row of its leftmost match, or nothing. */
  function ParseLine(line: string): (r: Option<Row>)
    ensures r.Some? ==> IsObservation(r.value)
  {
    match Search(line, 0)
    case None => None
    case Some(m) =>
      SearchSound(line, 0);
      Some(RowOf(line, m))
  }

  /** A line yields a row exactly when the pattern matches somewhere in it,
      and the row is the one of the leftmost match. */
  lemma ParseLineSpec(line: string, r: Row)
    ensures ParseLine(line) == Some(r) <==> exists m :: LeftmostFit(line, m) && r == RowOf(line, m)
  {
    SearchSound(line, 0);
    if ParseLine(line) == Some(r) {
      var m := Search(line, 0).value;
      forall m' | Fits(line, m') ensures m.start <= m'.start {
        SearchLeftmost(line, 0, m');
        assert Search(line, 0).value.start <= m'.start;
      }
      assert LeftmostFit(line, m);
    }
    if m :| LeftmostFit(line, m) && r == RowOf(line, m) {
      SearchLeftmost(line, 0, m);
      var m0 := Search(line, 0).value;
      assert m0.start == m.start;
      MatchAtComplete(line, m0);
      MatchAtComplete(line, m);
    }
  }

  /** A line yields nothing exactly when the pattern matches nowhere in it. */
  lemma ParseLineNone(line: string)
    ensures ParseLine(line) == None <==> forall m :: !Fits(line, m)
  {
    SearchSound(line, 0);
    if m :| Fits(line, m) {
      SearchLeftmost(line, 0, m);
    }
  }

  /** The observations extracted from the recognised lines, one per line
      with a match, in line order (app.py:20-35). */
  function Extracted(lines: seq<string>): (data: seq<Row>)
    ensures |data| <= |lines|
    ensures AllObservations(data)
    decreases |lines|
  {
    if lines == [] then []
    else
      var before := Extracted(lines[..|lines| - 1]);
      match ParseLine(lines[|lines| - 1])
      case Some(row) => before + [row]
      case None => before
  }

  /** Extraction works line by line: the rows of two blocks of lines are the
      rows of the first block followed by the rows of the second. */
  lemma {:induction false} ExtractedAppend(a: seq<string>, b: seq<string>)
    ensures Extracted(a + b) == Extracted(a) + Extracted(b)
    decreases |b|
  {
    if b == [] {
      assert a + b == a;
    } else {
      var b' := b[..|b| - 1];
      assert (a + b)[..|a + b| - 1] == a + b';
      assert (a + b)[|a + b| - 1] == b[|b| - 1];
      ExtractedAppend(a, b');
    }
  }

  /** A single line yields its own row, or nothing. */
  lemma ExtractedSingle(line: string)
    ensures Extracted([line]) == (match ParseLine(line) case Some(row) => [row] case None => [])
  {
    assert [line][..0] == [];
  }

  /** The batch is empty exactly when no line has a match. */
  lemma {:induction false} ExtractedEmpty(lines: seq<string>)
    ensures Extracted(lines) == [] <==> forall k :: 0 <= k < |lines| ==> ParseLine(lines[k]) == None
    decreases |lines|
  {
    if lines != [] {
      var init := lines[..|lines| - 1];
      ExtractedEmpty(init);
      assert forall k :: 0 <= k < |init| ==> init[k] == lines[k];
    }
  }

  /** The loop of app.py:20-35: append the row of every line that matches. */
  method ExtractStats(lines: seq<string>) returns (data: seq<Row>)
    ensures data == Extracted(lines)
  {
    data := [];
    var i := 0;
    while i < |lines|
      invariant 0 <= i <= |lines|
      invariant data == Extracted(lines[..i])
    {
      assert lines[..i + 1][..i] == lines[..i];
      match ParseLine(lines[i]) {
        case Some(row) => data := data + [row];
        case None =>
      }
      i := i + 1;
    }
    assert lines[..i] == lines;
  }
}
