# Shock wave strike counter — Dafny model

The shock wave counter is a command-line tool. It records how many strikes an
extracorporeal shock wave machine delivered in a session, with an optional session tag,
in a `strike_log` table. It answers three questions about that log:

- a total, optionally filtered by tag without regard to case;
- a per-tag summary with a grand total;
- an itemised detail listing.

This project models the two parts of the program that hold its logic, and proves what they
promise.

- **The strike log store** (`Database`, shock_wave_counter/database.py).
  - The table is a `seq<Entry>` plus an AUTOINCREMENT counter, held by the class
    `Storage.Database`, whose fields are updated in place by `AddStrikeEntry`.
  - The meaning of each SQL statement is given as a pure function over the rows (module
    `StrikeLog`):
    - `WHERE LOWER(tag) = ?` is `Selected` / `Filter`;
    - `SUM(strikes_count)` is `Sum` / `TotalStrikes`;
    - `GROUP BY tag` is `TagSum` / `SummaryOf` / `GroupRows`;
    - `ORDER BY LOWER(tag) ASC, entry_datetime DESC` is `DetailLe` / `Details`.
  - `GetSummaryByTag` keeps the Python loop that folds the grouped rows into a dictionary
    and a running grand total, with its loop invariants.
  - `CREATE TABLE IF NOT EXISTS` is `CreateTableIfNotExists`, over an optional existing
    table.
- **The command logic** (shock_wave_counter/main.py).
  - The checks `_parse_arguments` applies after argparse are a pure function from the
    parsed record to a usage error or the accepted record (`Cli.ValidateArgs`).
    `main`'s if/elif chain is `Cli.Dispatch`.
  - The `App` class is `Application.App`. Its methods return the lines the program would
    print.
  - `main` itself is `Application.Run`. Its result is the exit code, the printed lines
    and the table left behind. It is proved equal to the specification function
    `Application.MainOutcome`, and the lemmas about that function state the exit codes
    and the append-only discipline.

Python's truthiness is modelled exactly:

- `Text.Truthy` is false for `None` and for `""`;
- `Cli.IntTruthy` is false for `None` and for `0`;
- so `--summary 0` runs the summary, and an empty `--filter-tag ""` means "no filter".

The clock is a parameter of `Run` (`now`, the ISO text that is stored). So is a storage
failure (`fault`).

Two points worth noting, where the code overrides what its own text suggests:

- A usage error exits with status **2**. `main`'s docstring promises 1 for any error
  (shock_wave_counter/main.py:264). However, `parser.error` raises `SystemExit(2)`, and
  `_parse_arguments` runs before `main`'s `try` (shock_wave_counter/main.py:267). The
  model follows the code.
- The summary lists the untagged group **last**. The query's `ORDER BY tag`
  (shock_wave_counter/database.py:109) puts NULL first. However, `query_summary`
  re-sorts the keys by `(t is None, t)` (shock_wave_counter/main.py:134).

Files: `wrappers.dfy` (Option, Result), `text.dfy` (case mapping, text order, integer
printing, truthiness), `strike_log.dfy` (SQL meaning), `storage.dfy` (table and
`Database`), `cli.dfy` (argument validation and dispatch), `application.dfy` (`App`,
messages, `Run`, small scenarios).

## Model

| member | source | states |
|---|---|---|
| Storage.CreateTableIfNotExists | shock_wave_counter/database.py:30-39 | an existing table is returned as it is; with none, a new table is empty and valid |
| Storage.InitializeIdempotent | shock_wave_counter/database.py:32 | running the initialisation over its own result changes nothing, and an existing log keeps all its entries |
| Storage.InsertRowAppends | shock_wave_counter/database.py:56-63 | an insert keeps the table valid, appends exactly one row with the given count, timestamp and tag, keeps the earlier rows unchanged, and gives the new row an id larger than every earlier id |
| Storage.InsertRowGrowsTotal | shock_wave_counter/database.py:56-63 | after an insert, the unfiltered total is larger by exactly the inserted count |
| Storage.InsertRowKeepsWriteInvariants | shock_wave_counter/main.py:61-76 | inserting a positive count with a lower-case tag keeps every count positive and every stored tag lower-case |
| Storage.Database.constructor | shock_wave_counter/database.py:13-21 | the opened store is valid and holds the initialised table |
| Storage.Database.AddStrikeEntry | shock_wave_counter/database.py:43-63 | the new state is the old table with one row inserted; validity (ids below the counter, increasing) is kept |
| Storage.Database.GetTotalStrikes | shock_wave_counter/database.py:65-88 | returns the filtered total; without a truthy filter it is the sum over all rows, and 0 on an empty log |
| Storage.Database.GetSummaryByTag | shock_wave_counter/database.py:90-120 | the keys are exactly the stored tag values, `None` is a key iff some row is untagged, and each value is the sum over rows with exactly that tag; the grand total is the sum of the group totals and equals the unfiltered total |
| Storage.Database.GetStrikeDetails | shock_wave_counter/database.py:122-154 | returns a permutation of the kept rows, ordered by lower-cased tag (untagged first), then newest timestamp first |
| StrikeLog.Filter | shock_wave_counter/database.py:81-83 | a row is kept iff it is in the log and passes the WHERE clause; no row is invented |
| StrikeLog.FilterCounts | shock_wave_counter/database.py:81-83 | the filter keeps exactly as many copies of each selected row as the log holds, and none of any other row |
| StrikeLog.TotalStrikesIsSumOfSelected | shock_wave_counter/database.py:78-88 | the total equals an independent element-by-element sum of the counts of the kept rows |
| StrikeLog.TotalAppend | shock_wave_counter/database.py:78-88 | a new row adds its count to exactly the totals whose filter keeps it |
| StrikeLog.TotalUnfiltered | shock_wave_counter/database.py:81 | with `None` or `""` as filter, every row counts |
| StrikeLog.FilterSameSelection | shock_wave_counter/database.py:81-83 | two filters that keep the same rows return the same rows |
| StrikeLog.TotalCaseInsensitive | shock_wave_counter/database.py:81-83 | the total for `t` equals the totals for `lower(t)` and `upper(t)` |
| StrikeLog.SumOfPositive | shock_wave_counter/database.py:78-88 | over positive counts, a sum is non-negative, and it is positive iff there are rows |
| StrikeLog.PositiveTotal | shock_wave_counter/database.py:78-88 | over positive counts, a total is 0 iff no row passes the filter (a NULL tag never matches a non-empty filter) |
| StrikeLog.TagSumAppend | shock_wave_counter/database.py:105-110 | a new row adds its count to the group of exactly its own stored tag |
| StrikeLog.SummaryKeys | shock_wave_counter/database.py:105-116 | the summary's keys are exactly the stored tag values, and `None` is a key iff some row is untagged |
| StrikeLog.SummaryCharacterised | shock_wave_counter/database.py:112-116 | a dictionary whose keys are the stored tags and whose values are the group totals is the summary |
| StrikeLog.SummaryEmptyIff | shock_wave_counter/database.py:105-120 | the summary has no group iff the log is empty |
| StrikeLog.DistinctTags | shock_wave_counter/database.py:108 | the groups list each stored tag value exactly once, and nothing else |
| StrikeLog.GroupRows | shock_wave_counter/database.py:105-111 | the grouped result rows carry pairwise distinct tags; a tag has a row iff some log row is stored with it; each row's total is the sum over the log rows with exactly that tag |
| StrikeLog.TagSumAbsent | shock_wave_counter/database.py:105-110 | a tag that no row carries has total 0 |
| StrikeLog.SumOverTagsAppendRow | shock_wave_counter/database.py:113-117 | a new row adds its count once to a sum over distinct groups that include its tag |
| StrikeLog.GroupTotalsAddUp | shock_wave_counter/database.py:113-117 | the group totals add up to the total over all rows: every row lies in exactly one group |
| StrikeLog.GroupAgreesWithFilteredTotal | shock_wave_counter/database.py:94 | when stored tags are lower-case, the group of a lower-case tag equals the total filtered by that tag |
| StrikeLog.NullsFirstLeTotal | shock_wave_counter/database.py:149 | NULL-first ascending order on tags is total |
| StrikeLog.NullsFirstLeAntisymmetric | shock_wave_counter/database.py:149 | NULL-first ascending order on tags is antisymmetric |
| StrikeLog.DetailLeTotal | shock_wave_counter/database.py:149 | the detail sort order is total |
| StrikeLog.DetailLeTransitive | shock_wave_counter/database.py:149 | the detail sort order is transitive |
| StrikeLog.InsertDetail | shock_wave_counter/database.py:149 | inserting a row into a listing adds exactly that row |
| StrikeLog.InsertDetailOrdered | shock_wave_counter/database.py:149 | inserting into an ordered listing keeps it ordered |
| StrikeLog.SortDetails | shock_wave_counter/database.py:149 | the sort is a permutation of its input and its output is ordered |
| StrikeLog.DetailsSpec | shock_wave_counter/database.py:128-154 | the listing is a permutation of the kept rows; it is ordered by lower-cased tag ascending with untagged first, and by timestamp descending within one lower-cased tag; it is empty iff no row matches |
| StrikeLog.DetailsFromLog | shock_wave_counter/database.py:140-147 | every listed row comes from a log row that the filter keeps |
| Text.Lower | shock_wave_counter/database.py:82-83 | same length; each character is mapped by the ASCII lower-case mapping |
| Text.Upper | shock_wave_counter/database.py:81-83 | same length; each character is mapped by the ASCII upper-case mapping |
| Text.LowerIdempotent | shock_wave_counter/main.py:69 | lower-casing twice is lower-casing once |
| Text.LowerOfUpper | shock_wave_counter/database.py:81-83 | upper-casing first does not change the lower-cased form |
| Text.LowerHasNoUpper | shock_wave_counter/main.py:69 | a lower-cased text has no upper-case letter |
| Text.StrLeReflexive | shock_wave_counter/main.py:133-135 | text order is reflexive |
| Text.StrLeTotal | shock_wave_counter/main.py:133-135 | text order is total |
| Text.StrLeTransitive | shock_wave_counter/main.py:133-135 | text order is transitive |
| Text.StrLeAntisymmetric | shock_wave_counter/main.py:133-135 | text order is antisymmetric |
| Text.NatToString | shock_wave_counter/main.py:110 | a non-negative number prints as a non-empty string of digits, with no leading zero |
| Text.IntToString | shock_wave_counter/main.py:110 | a number prints as non-empty text, starting with `-` iff it is negative |
| Text.NatToStringRoundTrip | shock_wave_counter/main.py:110 | the printed digits read back as the number |
| Text.IntToStringRoundTrip | shock_wave_counter/main.py:104-110 | a printed integer reads back as itself, so distinct totals print differently |
| Cli.SummaryConflicts | shock_wave_counter/main.py:214-218 | with `--summary`, the record is refused (and only with the summary message) iff `--count`, a truthy filter tag, a truthy count or a truthy session tag comes with it; otherwise it is accepted unchanged |
| Cli.CountModeConflicts | shock_wave_counter/main.py:219-226 | with `--count` or `--filter-tag` and no summary, it is refused iff a positional is present; an accepted record has `count` set |
| Cli.AddModeRequiresCount | shock_wave_counter/main.py:227-230 | with no query flag, it is refused iff the count to add is missing, and then with the "<count_to_add> is required" message |
| Cli.LateChecksUnreachable | shock_wave_counter/main.py:236-249 | the "Too many operations" and "No operation specified" errors never fire: validation equals the first checks alone |
| Cli.AcceptedDispatch | shock_wave_counter/main.py:276-296 | an accepted record has exactly one active mode and never reaches the fallback; the dispatch is summary, then count/filter-tag, then add entry |
| Cli.SummaryWithZeroCount | shock_wave_counter/main.py:215 | `--summary 0` is accepted and runs the summary |
| Cli.EmptyFilterTagCounts | shock_wave_counter/main.py:204 | `--filter-tag ""` is accepted and selects count mode |
| Application.ProcessTag | shock_wave_counter/main.py:67-69 | the result is present iff the tag is truthy, and then it is truthy and lower-case |
| Application.ProcessedFilterSameTotal | shock_wave_counter/main.py:92-98 | lower-casing the filter before querying does not change the total |
| Application.SortTags | shock_wave_counter/main.py:133-135 | the sorted keys are exactly the dictionary's keys, each once, ascending by `(t is None, t)` |
| Application.UntaggedSortsLast | shock_wave_counter/main.py:134 | when present, the untagged key is sorted last |
| Application.SummaryLinesShape | shock_wave_counter/main.py:128-145 | an empty summary with a zero total prints only "No strikes recorded yet."; otherwise a header, one line per tag, the separator and the grand total line |
| Application.SummaryLinesOrder | shock_wave_counter/main.py:137-142 | the tag lines follow the sorted keys one by one, each showing its key's total |
| Application.SummaryUntaggedLast | shock_wave_counter/main.py:133-144 | an untagged group is printed as the last tag line, just above the separator |
| Application.App.constructor | shock_wave_counter/main.py:27-43 | the application opens a fresh, valid store holding the initialised table |
| Application.App.AddStrikeEntry | shock_wave_counter/main.py:45-82 | a count `<= 0` fails with the positive-count message and writes nothing; otherwise exactly one entry is inserted, with the processed tag and the given timestamp, and the confirmation message is returned |
| Application.App.QueryTotalStrikes | shock_wave_counter/main.py:84-112 | with a truthy filter: "Total strikes for tag 'x': N" if N > 0, else "No strikes found for tag 'x'." (x lower-cased); without one: "Total strikes: N" or "No strikes recorded yet." |
| Application.App.QuerySummary | shock_wave_counter/main.py:117-145 | the summary lines for the log's summary and total; an empty log prints only "No strikes recorded yet."; otherwise the header comes first and the grand total (the unfiltered total) last |
| Application.Run | shock_wave_counter/main.py:255-308 | running validation, the application and its store yields exactly the outcome `MainOutcome` specifies: a usage error gives 2 and its message; a fault opening the store gives 1 and "An unexpected error occurred: …"; otherwise the dispatched operation's lines and exit 0, or 1 and "Error: …" for a non-positive count |
| Application.MainExitCodes | shock_wave_counter/main.py:267-308 | the exit status is always 0, 1 or 2; it is 2 exactly for a usage error, which prints nothing on stdout and leaves the store untouched; it is 1 exactly for a storage fault or a non-positive count; every failure yields exactly one `print(..., file=sys.stderr)` line (logger output is not modelled) and changes no row |
| Application.MainKeepsTableValid | shock_wave_counter/main.py:61-76 | a run keeps every valid stored table valid (ids below the counter and increasing); if every count was positive and every stored tag lower-case before the run, the same holds after it |
| Application.MainAppendsOnly | shock_wave_counter/main.py:282-286 | the only change a run makes to the log is one appended row from a successful add, with exit 0, a positive count, the given timestamp and a lower-case tag; earlier rows are unchanged |
| Application.EmptyStoreScenario | shock_wave_counter/main.py:112 | on a new store, every total is 0, the summary is empty and prints one line, and the listing is empty |
| Application.GymInserts | shock_wave_counter/main.py:67-76 | adding 5 untagged, 3 as "gym" and 7 as "GYM" stores ids 1..3 and the tag "gym" twice |
| Application.GymTotals | shock_wave_counter/database.py:78-88 | that log totals 15 unfiltered and 10 for both "gym" and "GYM" |
| Application.GymSummary | shock_wave_counter/database.py:105-120 | that log summarises to untagged 5 and "gym" 10 |
| Application.GymSpelling | shock_wave_counter/main.py:69 | "GYM" and "gym" both lower-case to "gym" |

## Left out

- Logging (shock_wave_counter/logger.py and every `logger` call). The logger writes to
  stderr too (an INFO-level stream handler), so the real stderr carries extra ERROR and
  CRITICAL lines. `Outcome.stderr` holds only the line that `print(..., file=sys.stderr)`
  writes.
- Path constants and directory creation (shock_wave_counter/constants.py, `mkdir`),
  connection opening, commits and closing: the table is an in-memory value.
- Application.MainOutcome: does not model SQLite's 64-bit INTEGER limit. Counts are
  unbounded integers. In the Python program, a count of 2^63 or more makes the insert raise
  OverflowError, and a `SUM` past 2^63 - 1 raises "integer overflow". Either way `main`
  prints "An unexpected error occurred: ..." and exits 1, with no row written. The model
  accepts such a count, appends the row, and exits 0.
- Storage failures: modelled only as a fault raised while the database is opened (`fault`
  in `Run`, exit 1, table unchanged). A failure in the middle of a query or insert is not
  modelled.
- argparse tokenising, `--help`, `--debug`, the conversion of `count_to_add` to `int`, and
  its own errors: the model starts from the parsed record.
- The usage banner and program-name prefix that `parser.error` prints before the message:
  only the message is modelled.
- `datetime.now(timezone.utc)` and `isoformat()`: the timestamp is the text `now` passed
  to `Run`.
- `modes_selected` (shock_wave_counter/main.py:207-211): it is computed and never used.
- The fallback branch of `main` (shock_wave_counter/main.py:287-296): it is proved
  unreachable, so its help output is not modelled.
- The order of the rows of `GROUP BY tag ORDER BY tag`: the dictionary and the grand total
  do not depend on it. The model enumerates groups in order of first appearance.
- Text.Lower: models the ASCII case mapping of SQLite's built-in `LOWER`. The full Unicode
  mapping of Python's `str.lower` is not modelled, so non-ASCII tags may fold differently
  in the Python program.
- StrikeLog.SortDetails: rows that compare equal (same lower-cased tag, same timestamp) may
  come out in any order from SQLite; the model fixes one order and states only what
  `ORDER BY` guarantees.
- The detail listing has no command-line entry: `get_strike_details` is modelled at the
  store but is never called from main.py.
