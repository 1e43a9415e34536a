/**
 * A statistics line written the way the game's results screen shows it,
 * and what the extractor reads back from it: the round trip that ties the
 * grammar of the extractor to the rows it produces, and the boundary cases
 * of the grammar.
 */
module LineFormat {
  import opened Records
  import opened Extractor

  function DigitChar(d: nat): (c: char)
    requires d < 10
    ensures IsDigit(c) && DigitValue(c) == d
  {
    (('0' as int) + d) as char
  }

  /** The decimal rendering of a number, without leading zeros. */
  function Digits(n: nat): (s: string)
    ensures |s| > 0
    ensures forall k :: 0 <= k < |s| ==> IsDigit(s[k])
    decreases n
  {
    if n < 10 then [DigitChar(n)] else Digits(n / 10) + [DigitChar(n % 10)]
  }

  /** Reading a rendered number back gives the number. */
  lemma {:induction false} DigitsRoundTrip(n: nat)
    ensures DigitsValue(Digits(n)) == n
    decreases n
  {
    var s := Digits(n);
    if n < 10 {
      assert s[..|s| - 1] == [];
    } else {
      DigitsRoundTrip(n / 10);
      assert s[..|s| - 1] == Digits(n / 10);
    }
  }

  /** The rating written as one digit, a dot and one digit. */
  function RatingText(tenths: nat): (s: string)
    requires tenths <= 99
    ensures |s| == 3
  {
    [DigitChar(tenths / 10), '.', DigitChar(tenths % 10)]
  }

  /** `name rating goals assists`, separated by single spaces. */
  function Format(r: Row): string
    requires r.ratingTenths <= 99
  {
    r.name + " " + RatingText(r.ratingTenths) + " " + Digits(r.goals) + " " + Digits(r.assists)
  }

  /** The pieces of a line are laid out left to right: once `s[off..]` is
      `t + rest`, the next `|t|` characters are `t` and `rest` follows. */
  lemma Peel(s: string, off: nat, t: string, rest: string)
    requires off <= |s| && s[off..] == t + rest
    ensures off + |t| <= |s|
    ensures s[off..off + |t|] == t
    ensures s[off + |t|..] == rest
  {
    assert s[off..off + |t|] == s[off..][..|t|];
    assert s[off + |t|..] == s[off..][|t|..];
  }

  /** `name rating goals assists` with single spaces, followed by `post`. */
  function Fields(name: string, rating: string, g: string, a: string, post: string): string {
    name + (" " + (rating + (" " + (g + (" " + (a + post))))))
  }

  /** Where the pattern finds the groups of `Fields(...)` written at `off`. */
  function FieldsSpan(off: nat, name: string, g: string, a: string): Span {
    var ne := off + |name|;
    var ge := ne + 5 + |g|;
    Span(off, ne, ne + 1, ne + 5, ge, ge + 1, ge + 1 + |a|)
  }

  /** The groups of `Fields(...)` written at `off` are the pieces it was built from. */
  lemma FieldsLayout(s: string, off: nat, name: string, rating: string, g: string, a: string, post: string)
    requires off <= |s| && s[off..] == Fields(name, rating, g, a, post)
    requires |rating| == 3
    ensures var m := FieldsSpan(off, name, g, a);
            && m.assistsEnd <= |s|
            && s[m.start..m.nameEnd] == name
            && s[m.nameEnd] == ' '
            && s[m.ratingAt..m.ratingAt + 3] == rating
            && s[m.ratingAt + 3] == ' '
            && s[m.goalsAt..m.goalsEnd] == g
            && s[m.goalsEnd] == ' '
            && s[m.assistsAt..m.assistsEnd] == a
            && s[m.assistsEnd..] == post
  {
    var ne := off + |name|;
    var ge := ne + 5 + |g|;
    var r1 := " " + (rating + (" " + (g + (" " + (a + post)))));
    var r2 := rating + (" " + (g + (" " + (a + post))));
    var r3 := " " + (g + (" " + (a + post)));
    var r4 := g + (" " + (a + post));
    var r5 := " " + (a + post);
    var r6 := a + post;
    Peel(s, off, name, r1);
    Peel(s, ne, " ", r2);
    Peel(s, ne + 1, rating, r3);
    Peel(s, ne + 4, " ", r4);
    Peel(s, ne + 5, g, r5);
    Peel(s, ge, " ", r6);
    Peel(s, ge + 1, a, post);
  }

  /** Every character of a slice equal to `t` is one of `t`'s. */
  lemma SliceIn(s: string, i: nat, j: nat, t: string, p: char -> bool)
    requires i <= j <= |s| && s[i..j] == t
    requires forall k :: 0 <= k < |t| ==> p(t[k])
    ensures AllIn(s, i, j, p)
  {
    forall k | i <= k < j ensures p(s[k]) {
      assert s[k] == t[k - i];
    }
  }

  lemma FieldsFit(s: string, off: nat, name: string, rating: string, g: string, a: string, post: string)
    requires off <= |s| && s[off..] == Fields(name, rating, g, a, post)
    requires ValidName(name)
    requires |rating| == 3 && IsDigit(rating[0]) && rating[1] == '.' && IsDigit(rating[2])
    requires |g| > 0 && forall k :: 0 <= k < |g| ==> IsDigit(g[k])
    requires |a| > 0 && forall k :: 0 <= k < |a| ==> IsDigit(a[k])
    requires post == [] || IsSpace(post[0])
    ensures Fits(s, FieldsSpan(off, name, g, a))
  {
    var m := FieldsSpan(off, name, g, a);
    FieldsLayout(s, off, name, rating, g, a, post);
    assert AllIn(s, m.start, m.nameEnd, IsNameChar) by {
      SliceIn(s, m.start, m.nameEnd, name, IsNameChar);
    }
    assert AllIn(s, m.nameEnd, m.ratingAt, IsSpace) by {
      SliceIn(s, m.nameEnd, m.ratingAt, " ", IsSpace);
    }
    assert RatingAt(s, m.ratingAt) by {
      assert s[m.ratingAt] == rating[0] && s[m.ratingAt + 1] == '.' && s[m.ratingAt + 2] == rating[2];
    }
    assert AllIn(s, m.ratingAt + 3, m.goalsAt, IsSpace) by {
      SliceIn(s, m.ratingAt + 3, m.goalsAt, " ", IsSpace);
    }
    assert AllIn(s, m.goalsAt, m.goalsEnd, IsDigit) by {
      SliceIn(s, m.goalsAt, m.goalsEnd, g, IsDigit);
    }
    assert AllIn(s, m.goalsEnd, m.assistsAt, IsSpace) by {
      SliceIn(s, m.goalsEnd, m.assistsAt, " ", IsSpace);
    }
    assert AllIn(s, m.assistsAt, m.assistsEnd, IsDigit) by {
      SliceIn(s, m.assistsAt, m.assistsEnd, a, IsDigit);
    }
    if m.assistsEnd < |s| {
      assert s[m.assistsEnd] == post[0];
      ClassesDisjoint(post[0]);
    }
  }

  /** The groups of an observation's fields, written at `off`, read back
      as that observation. */
  lemma FieldsRow(s: string, off: nat, r: Row, post: string)
    requires IsObservation(r)
    requires off <= |s|
    requires s[off..] == Fields(r.name, RatingText(r.ratingTenths), Digits(r.goals), Digits(r.assists), post)
    requires post == [] || IsSpace(post[0])
    ensures Fits(s, FieldsSpan(off, r.name, Digits(r.goals), Digits(r.assists)))
    ensures RowOf(s, FieldsSpan(off, r.name, Digits(r.goals), Digits(r.assists))) == r
  {
    var rating, g, a := RatingText(r.ratingTenths), Digits(r.goals), Digits(r.assists);
    FieldsFit(s, off, r.name, rating, g, a, post);
    FieldsLayout(s, off, r.name, rating, g, a, post);
    var m := FieldsSpan(off, r.name, g, a);
    DigitsRoundTrip(r.goals);
    DigitsRoundTrip(r.assists);
    assert s[m.ratingAt] == rating[0] && s[m.ratingAt + 2] == rating[2];
  }

  /** The groups found in a formatted observation hold its own values. */
  lemma FormattedGroups(pre: string, r: Row, post: string)
    requires IsObservation(r)
    requires post == [] || IsSpace(post[0])
    ensures var m := FieldsSpan(|pre|, r.name, Digits(r.goals), Digits(r.assists));
            Fits(pre + Format(r) + post, m) && RowOf(pre + Format(r) + post, m) == r
  {
    var s := pre + Format(r) + post;
    var fields := Fields(r.name, RatingText(r.ratingTenths), Digits(r.goals), Digits(r.assists), post);
    assert s == pre + fields;
    assert s[|pre|..] == fields;
    FieldsRow(s, |pre|, r, post);
  }

  /** Any observation, written as a line, with leading whitespace and with
      trailing text that starts with whitespace, is read back as itself. */
  lemma ParseFormatted(pre: string, r: Row, post: string)
    requires IsObservation(r)
    requires forall k :: 0 <= k < |pre| ==> IsSpace(pre[k])
    requires post == [] || IsSpace(post[0])
    ensures ParseLine(pre + Format(r) + post) == Some(r)
  {
    var s := pre + Format(r) + post;
    var m := FieldsSpan(|pre|, r.name, Digits(r.goals), Digits(r.assists));
    FormattedGroups(pre, r, post);
    // No match can start inside the leading whitespace.
    forall k | 0 <= k < m.start ensures !IsNameChar(s[k]) {
      assert s[k] == pre[k];
      ClassesDisjoint(pre[k]);
    }
    SearchFindsFirst(s, m);
  }

  /** A line without a dot cannot hold a rating, so it yields nothing. */
  lemma NoDotNoRow(line: string)
    requires forall k :: 0 <= k < |line| ==> line[k] != '.'
    ensures ParseLine(line) == None
  {
    forall m ensures !Fits(line, m) {
    }
    ParseLineNone(line);
  }

  lemma PlainLine()
    ensures ParseLine("PlayerOne 7.5 2 1") == Some(Row("PlayerOne", 1, 2, 1, 75))
  {
    var r := Row("PlayerOne", 1, 2, 1, 75);
    assert Digits(2) == "2" && Digits(1) == "1";
    assert Format(r) == "PlayerOne 7.5 2 1";
    ParseFormatted("", r, "");
    assert "" + Format(r) + "" == "PlayerOne 7.5 2 1";
  }

  lemma NoiseLine()
    ensures ParseLine("### noise ###") == None
  {
    NoDotNoRow("### noise ###");
  }

  lemma PaddedLine()
    ensures ParseLine("  Mbappe 9.8 3 2  extra tokens") == Some(Row("Mbappe", 1, 3, 2, 98))
  {
    var r := Row("Mbappe", 1, 3, 2, 98);
    PaddedParts(r);
    ParseFormatted("  ", r, "  extra tokens");
  }

  /** The padded example line is the formatted row between its two paddings. */
  lemma PaddedParts(r: Row)
    requires r == Row("Mbappe", 1, 3, 2, 98)
    ensures r.ratingTenths <= 99
    ensures "  " + Format(r) + "  extra tokens" == "  Mbappe 9.8 3 2  extra tokens"
  {
    assert Digits(3) == "3" && Digits(2) == "2";
    assert Format(r) == "Mbappe 9.8 3 2";
    assert "  " + "Mbappe 9.8 3 2" + "  extra tokens" == "  Mbappe 9.8 3 2  extra tokens";
  }
}
