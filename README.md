# Liga Virtual statistics core, modelled in Dafny

`app.py` keeps a league table of players of a football video game. A
screenshot of a match's results screen is read by OCR into lines of text;
each line that matches the pattern
`([A-Za-z0-9_.-]+)\s+([6-9]\.\d|\d\.\d)\s+(\d+)\s+(\d+)` becomes one
observation (name, one match played, goals, assists, rating); the batch of
observations is merged into the ledger `stats.csv` (columns Nombre, PJ,
Goles, Asistencias, CalificacionTotal), and the page shows headline totals
and rankings by goals, assists and average rating for the players with at
least a chosen number of matches.

The model has six modules:

- `Records` (`records.dfy`): the `Row` of the table, the character classes
  of the pattern, column sums (`Totals`), the rows of one player (`Named`)
  and the set of names (`Names`). Ratings are whole tenths: 7.5 is 75.
- `Extractor` (`extractor.dfy`): the pattern as a scanner. `Fits` states
  declaratively when a span of a line is a match; `MatchAt` computes the
  match at a position and `Search` the leftmost one, as `re.search` does;
  `ParseLine` builds the observation; `ExtractStats` is the loop of
  `extract_stats_from_image`, proved equal to the function `Extracted`.
- `LineFormat` (`line_format.dfy`): an observation written back as a line
  and read again — the round trip — plus the concrete example lines.
- `LedgerStore` (`ledger.dfy`): `update_stats`. The functions `MergeRow`
  and `MergeAll` specify the merge; the class `Ledger` holds the table as a
  field and its methods `Merge` and `UpdateStats` update it in place, with
  loops proved against those functions. The lemmas give the promises of the
  merge: one row per player, conservation of every column in total and per
  player, merging two batches equals merging their concatenation, and the
  final per-player totals do not depend on batch order.
- `Queries` (`queries.dfy`): the headline totals, the slider's range, the
  minimum-matches filter, the rounded average rating and the descending
  rankings.
- `App` (`app.dfy`): the upload step, which merges only a non-empty batch.

The existing-player branch of `update_stats` adds a literal 1 to PJ
(app.py:41) rather than the observation's own PJ; the model does the same.
Since every extracted observation has PJ 1 this agrees with adding the
observation's PJ, and `ObservationsPlayed` and `MergeAllPlayed` state the
resulting count.

## Model

| member | source | states |
|---|---|---|
| Records.IsNameChar | app.py:19 | the name class `[A-Za-z0-9_.-]` |
| Records.IsSpace | app.py:19 | `\s`: the characters for which Python's `str.isspace` holds |
| Records.IsDigit | app.py:19 | `\d`, restricted to the ASCII digits |
| Records.ClassesDisjoint | app.py:19 | a `\s` character is neither a name character nor a digit, and every digit is a name character |
| Records.TotalsAppend | app.py:80-81 | column sums of two stacked tables are the sums of the parts |
| Records.ObservationsPlayed | app.py:30 | a batch of observations contributes exactly one match per row |
| Records.UniqueNamesCount | app.py:82 | with one row per player the row count equals the number of distinct players |
| Extractor.RunEnd | app.py:19 | the end of a maximal run of one character class: every character before it is in the class and the next one is not |
| Extractor.RunEndUnique | app.py:19 | any run end with that property is the one computed, so each greedy group has a single possible extent |
| Extractor.RatingAt | app.py:19 | the rating group: `[6-9]\.\d` or `\d\.\d`, both alternatives as written |
| Extractor.Fits | app.py:19 | a span of a line is a match of the whole pattern: each group in place, whitespace runs between them, the last `\d+` taken greedily |
| Extractor.LeftmostFit | app.py:22 | the match `re.search` reports: a match with no other match starting further left |
| Extractor.RatingAlternativesCollapse | app.py:19 | the rating alternation `[6-9]\.\d|\d\.\d` accepts exactly digit, dot, digit |
| Extractor.MatchAt | app.py:19 | a match tried at a position starts there |
| Extractor.MatchAtSound | app.py:19 | what is found at a position satisfies the pattern |
| Extractor.MatchAtComplete | app.py:19 | every match of the pattern at a position is the one found there (the pattern matches at most one way per start) |
| Extractor.Search | app.py:22 | a match found by the search starts no earlier than the search position |
| Extractor.SearchSound | app.py:22 | what the search finds satisfies the pattern |
| Extractor.SearchReaches | app.py:22 | the search stops no later than the first position where the pattern matches |
| Extractor.SearchLeftmost | app.py:22 | whenever some match starts at or after the search position, the search finds one starting no later |
| Extractor.SearchFindsFirst | app.py:22 | a match preceded only by non-name characters is the one `re.search` returns |
| Extractor.DigitValue | app.py:25-27 | a digit character's value is below ten |
| Extractor.DigitsValue | app.py:26-27 | `int()` of a run of decimal digits, most significant digit first; `LineFormat.DigitsRoundTrip` shows it inverts decimal writing |
| Extractor.RowOf | app.py:24-34 | the observation built from a match has PJ 1, the name group as name, and rating first digit times ten plus the digit after the dot |
| Extractor.ParseLine | app.py:22-34 | a line yields at most one observation and any it yields is well formed |
| Extractor.ParseLineSpec | app.py:19-34 | a line yields a row exactly when the row is built from the leftmost match of the pattern |
| Extractor.ParseLineNone | app.py:22-23 | a line yields nothing exactly when the pattern matches nowhere in it |
| Extractor.Extracted | app.py:20-35 | extraction yields at most one well-formed observation per line |
| Extractor.ExtractedAppend | app.py:21-34 | extraction works line by line: the result for two blocks of lines is the concatenation of the results |
| Extractor.ExtractedSingle | app.py:22-34 | one line contributes its parsed row, or nothing |
| Extractor.ExtractedEmpty | app.py:21-35 | the batch is empty exactly when no line matches |
| Extractor.ExtractStats | app.py:17-35 | the extraction loop returns the observations of the matching lines, in line order |
| LineFormat.DigitsRoundTrip | app.py:26-27 | reading the decimal text of a count gives back the count |
| LineFormat.FieldsFit | app.py:19 | name, single spaces, rating, goals and assists laid out left to right form a match with those groups |
| LineFormat.FieldsRow | app.py:24-33 | the groups of an observation's fields, written anywhere in a line, form a match that reads back as that observation |
| LineFormat.FormattedGroups | app.py:24-33 | the groups of a written observation read back as that observation |
| LineFormat.ParseFormatted | app.py:19-34 | every observation written as a line, with leading whitespace and trailing text after whitespace, is read back as itself |
| LineFormat.NoDotNoRow | app.py:19-23 | a line without a dot yields nothing |
| LineFormat.PlainLine | app.py:19-34 | "PlayerOne 7.5 2 1" yields PlayerOne with 1 match, 2 goals, 1 assist, rating 7.5 |
| LineFormat.NoiseLine | app.py:19-23 | "### noise ###" yields nothing |
| LineFormat.PaddedLine | app.py:19-34 | "  Mbappe 9.8 3 2  extra tokens" yields Mbappe with 3 goals, 2 assists, rating 9.8 |
| LedgerStore.Accumulate | app.py:41-44 | the known player's row after one observation keeps its name, and its column sums grow by exactly the observation's (PJ by the literal 1) |
| LedgerStore.UpdateNamed | app.py:41-44 | the masked `df.loc[df['Nombre'] == name, col] +=` updates: same length, every row keeps its name, and rows with another name are unchanged |
| LedgerStore.HasPlayer | app.py:40 | `name in df['Nombre'].values`: some row carries the name |
| LedgerStore.MergeRow | app.py:40-46 | one observation merged: the table grows by a row exactly when the player is new, and existing rows keep their names and places |
| LedgerStore.MergeAll | app.py:39-46 | a batch merged in order: the table grows by at most one row per observation and existing rows keep their names and places |
| LedgerStore.MergeExisting | app.py:40-44 | merging a known player's observation adds one match and the goals, assists and rating to that player's row and leaves every other row as it was |
| LedgerStore.MergeAbsent | app.py:45-46 | an unknown player's observation is appended as a new last row |
| LedgerStore.UpdateNamedAt | app.py:41-44 | with unique names the masked column updates change exactly the player's one row |
| LedgerStore.MergeRowUnique | app.py:39-46 | merging one observation keeps one row per player |
| LedgerStore.MergeAllUnique | app.py:37-47 | merging a batch keeps one row per player |
| LedgerStore.MergeRowWellFormed | app.py:39-46 | merging one observation keeps PJ at least 1 and the rating total within 9.9 per match |
| LedgerStore.MergeAllWellFormed | app.py:37-47 | merging a batch keeps the ledger well formed |
| LedgerStore.MergeAllAppend | app.py:39-46 | merging two batches in turn equals merging their concatenation |
| LedgerStore.SameNewPlayerTwice | app.py:39-46 | an unseen name occurring twice in a batch becomes one row holding the sum of both observations |
| LedgerStore.MergeRowTotals | app.py:40-46 | merging one observation grows every column sum by exactly that observation |
| LedgerStore.MergeAllTotals | app.py:37-47 | merging a batch grows every column sum by exactly the batch's sums |
| LedgerStore.MergeAllPlayed | app.py:41 | a batch of N observations adds exactly N to the matches played |
| LedgerStore.MergeRowNamed | app.py:40-46 | per player, merging one observation adds it to that player's sums only |
| LedgerStore.MergeAllNamed | app.py:37-47 | per player, matches, goals, assists and rating grow by exactly what the batch holds for that player |
| LedgerStore.MergeOrderIndependent | app.py:37-47 | each player's final sums do not depend on the order in which two batches are merged |
| LedgerStore.HasPlayerNames | app.py:40 | the membership test is membership in the set of names |
| LedgerStore.MergeRowNames | app.py:40-46 | after a merge the table's names are the old names plus the observation's |
| LedgerStore.MergeAllNames | app.py:37-47 | after a batch the table's names are the old names plus the batch's |
| LedgerStore.Ledger.constructor | app.py:11-13 | a fresh ledger is the empty table and well formed |
| LedgerStore.Ledger.Contains | app.py:40 | the answer is true exactly when some row has the name |
| LedgerStore.Ledger.Merge | app.py:40-46 | the in-place merge leaves the table equal to MergeRow of the old table |
| LedgerStore.Ledger.UpdateStats | app.py:37-47 | the in-place batch merge leaves the table equal to MergeAll of the old table, and keeps a well-formed ledger well formed |
| Queries.SummaryOf | app.py:80-82 | the three headline figures: total goals and assists over the unfiltered ledger, and a player count equal to the number of distinct names when each player has one row |
| Queries.SummaryAfterUpload | app.py:80-82 | after an upload total goals and assists grow by the batch's sums and the player count is the number of distinct names seen |
| Queries.MaxPlayed | app.py:84 | the slider's upper end is at least every row's PJ and is some row's PJ |
| Queries.AtLeast | app.py:85 | the filter keeps each row, as often as it occurs, exactly when its PJ reaches the threshold |
| Queries.AtLeastAll | app.py:85 | a threshold every row reaches keeps the table as it is |
| Queries.AtLeastOne | app.py:84-85 | at the slider's default of 1 a ledger is shown unfiltered |
| Queries.RoundHalfEven | app.py:77 | the rounded value is within half a unit of the fraction, and ties go to the even neighbour |
| Queries.AverageHundredths | app.py:77 | the average in hundredths is within half a hundredth of CalificacionTotal / PJ |
| Queries.AverageBounded | app.py:77 | the average of a well-formed row is at most 9.90 |
| Queries.AverageExample | app.py:77 | PJ 4 with total 30.0 averages 7.50; PJ 3 with total 22.0 averages 7.33 |
| Queries.Column | app.py:88-96 | the row of a ranking view: Nombre, PJ and Goles, Asistencias or the rounded average rating |
| Queries.Insert | app.py:90 | inserting into a descending view keeps it descending and adds exactly that entry |
| Queries.SortDesc | app.py:90 | the sorted view is descending and a permutation of its input |
| Queries.AtLeastMember | app.py:85 | a row is in the filtered view exactly when it is a ledger row whose PJ reaches the threshold |
| Queries.ProjectMember | app.py:90 | an entry is in the projection exactly when some row projects to it |
| Queries.SortDescMember | app.py:90 | sorting neither adds nor drops an entry |
| Queries.FilteredViewMember | app.py:85-90 | an entry is in the filtered projection exactly when a row with PJ at the threshold or above projects to it |
| Queries.Ranking | app.py:85-96 | a ranking view: the filtered rows, projected to their ranked column and sorted highest first (`RankingSpec` states its properties) |
| Queries.RankingMember | app.py:85-96 | an entry is ranked exactly when a row with PJ at the threshold or above projects to it |
| Queries.RankingSpec | app.py:85-96 | each ranking is descending in its column, a permutation of the filtered view, as long as it, and holds exactly the entries of the rows passing the filter |
| Queries.RankingNonEmpty | app.py:84-85 | every slider setting up to the largest PJ shows at least one player |
| Queries.Dashboard | app.py:75-98 | an empty ledger shows only the hint; otherwise the totals, a slider end no smaller than any PJ, and the chosen ranking, which is non-empty within the slider's range |
| Queries.ThresholdExample | app.py:85 | with PJ 1, 2 and 3 and threshold 2, the PJ 1 row is dropped and the other two are kept |
| Queries.GoalRankingExample | app.py:90 | with goals 5, 9 and 5 the ranking has three rows and the 9-goal player first |
| App.ProcessUpload | app.py:65-73 | no upload changes nothing; an upload merges the extracted batch; the page reports an update exactly when some line matched, and otherwise the ledger is unchanged; a well-formed ledger stays well formed and its matches played grow by the batch size |

## Left out

- OCR (`reader.readtext`, app.py:15, 18) is outside the model: the
  extractor takes the recognised lines of text as its input.
- Reading and writing `stats.csv` (app.py:9-13, 38, 47, 75) is outside the
  model: the ledger is the table in memory. The column types pandas infers
  on every read are not modelled either. Names in pandas' list of missing
  values that the name pattern allows (`NA`, `NaN`, `nan`, `NULL`, `null`,
  `None`, `-nan`, `-NaN`) are read back as missing values in any file;
  numeric-looking names such as `007` or `1.5` are read back as numbers only
  when every name in the file is numeric-looking. Either way the player no
  longer equals the extracted name and gets a second row on the next upload.
  So "one row per player" (`MergeAllUnique`, `WellFormed`, and the
  well-formedness `ProcessUpload` preserves) holds for the table in memory,
  not for the stored file across uploads.
- `\d` is modelled as the ASCII digits only; Python's `\d` on text also
  accepts other Unicode decimal digits, and `int`/`float` would read them.
- Integer width is not modelled: PJ, goals, assists and their sums are
  unbounded naturals, whereas pandas keeps them in 64-bit integer columns
  whose `+=` (app.py:41-43) and `.sum()` (app.py:80-81) are bounded, and
  Python's `int()` refuses a digit run of more than 4300 characters
  (app.py:26-27), which would abort the upload before `update_stats`. The
  conservation results (`MergeAllTotals`, `MergeAllNamed`,
  `SummaryAfterUpload`) hold only under this idealisation; the bounds are
  reached only by absurd values.
- Ratings are exact tenths, and CalificacionTotal an exact sum of tenths;
  the floating-point rounding of the stored sum is not modelled.
- AverageHundredths: rounds the exact quotient to two decimals, ties to
  even; `Series.round(2)` works on the binary floating-point quotient, which
  can fall on the other side of a tie. A row with PJ 0 has no average
  (pandas gives infinity or NaN); it gets 0 here, and a well-formed ledger
  has none.
- Queries.SortDesc: says nothing about the relative order of tied rows; the
  sort pandas uses by default is not stable, so the page promises none.
- The Streamlit page itself (title, image preview, metric widgets, select
  box, messages) is presentation and not modelled beyond which notice is
  shown and which view is chosen.
- The page runs again from the top on every widget change, and the file
  uploader keeps returning the same file until it is cleared, so a file that
  is still selected is merged again each time the slider or the select box
  changes. `ProcessUpload` models one run of the page; "an upload merges the
  batch" means once per run, not once per file.
- Several uploads running at the same time on the same ledger file are not
  modelled; `UpdateStats` runs alone.
