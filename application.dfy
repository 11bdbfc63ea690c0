/**
 * The `App` class of main.py (adding an entry, the two queries and the lines they print) and
 * `main`, which validates the arguments, dispatches and maps errors to exit codes. Printed
 * lines are returned instead of printed; the clock is a parameter.
 */
module Application {
  import opened Wrappers
  import opened Text
  import opened StrikeLog
  import opened Storage
  import opened Cli

  const NoStrikesYet := "No strikes recorded yet."
  const InvalidCount := "Strike count must be a positive integer."
  const SummaryHeader := "Strike Summary:"
  const SummarySeparator := "--------------------"

  /** A truthy tag lower-cased, anything else `None` (main.py:67-69 and 92-94). */
  function ProcessTag(tag: Option<string>): (r: Option<string>)
    ensures r.Some? <==> Truthy(tag)
    ensures r.Some? ==> Truthy(r) && Lower(r.value) == r.value
  {
    if Truthy(tag) then LowerIdempotent(tag.value); Some(Lower(tag.value)) else None
  }

  /** The total seen through a processed filter is the total seen through the raw one. */
  lemma ProcessedFilterSameTotal(rows: seq<Entry>, filter: Option<string>)
    ensures TotalStrikes(rows, ProcessTag(filter)) == TotalStrikes(rows, filter)
  {
    if Truthy(filter) {
      TotalCaseInsensitive(rows, filter.value);
    } else {
      TotalUnfiltered(rows, filter);
      TotalUnfiltered(rows, None);
    }
  }

  function AddedMessage(count: int, tag: Option<string>): string {
    "Successfully added " + IntToString(count) + " strikes."
    + (if Truthy(tag) then " with tag '" + tag.value + "'" else "")
  }

  /** The line `query_total_strikes` prints for a processed filter and its total. */
  function TotalMessage(processedFilter: Option<string>, total: int): string {
    if Truthy(processedFilter) then
      if total > 0 then "Total strikes for tag '" + processedFilter.value + "': " + IntToString(total)
      else "No strikes found for tag '" + processedFilter.value + "'."
    else if total > 0 then "Total strikes: " + IntToString(total)
    else NoStrikesYet
  }

  function TagLine(tag: Option<string>, count: int): string {
    if tag.None? then "  Untagged: " + IntToString(count) + " strikes"
    else "  Tag '" + tag.value + "': " + IntToString(count) + " strikes"
  }

  /** The sort key `(t is None, t)`: string tags ascending, the untagged group last. */
  predicate SummaryKeyLe(a: Option<string>, b: Option<string>) {
    b.None? || (a.Some? && StrLe(a.value, b.value))
  }

  lemma SummaryKeyLeReflexive(a: Option<string>)
    ensures SummaryKeyLe(a, a)
  {
    if a.Some? {
      StrLeReflexive(a.value);
    }
  }

  lemma SummaryKeyLeTotal(a: Option<string>, b: Option<string>)
    ensures SummaryKeyLe(a, b) || SummaryKeyLe(b, a)
  {
    if a.Some? && b.Some? {
      StrLeTotal(a.value, b.value);
    }
  }

  lemma SummaryKeyLeTransitive(a: Option<string>, b: Option<string>, c: Option<string>)
    requires SummaryKeyLe(a, b) && SummaryKeyLe(b, c)
    ensures SummaryKeyLe(a, c)
  {
    if c.Some? {
      StrLeTransitive(a.value, b.value, c.value);
    }
  }

  lemma SummaryKeyLeAntisymmetric()
    ensures forall a, b :: SummaryKeyLe(a, b) && SummaryKeyLe(b, a) ==> a == b
  {
    forall a, b | SummaryKeyLe(a, b) && SummaryKeyLe(b, a) ensures a == b {
      if a.Some? && b.Some? {
        StrLeAntisymmetric(a.value, b.value);
      }
    }
  }

  /** `k` sorts first among `keys`. */
  predicate IsLeast(k: Option<string>, keys: set<Option<string>>) {
    k in keys && forall j :: j in keys ==> SummaryKeyLe(k, j)
  }

  lemma {:induction false} LeastExists(keys: set<Option<string>>)
    requires keys != {}
    ensures exists k :: IsLeast(k, keys)
    decreases |keys|
  {
    var x :| x in keys;
    SummaryKeyLeReflexive(x);
    if keys == {x} {
      assert IsLeast(x, keys);
    } else {
      var rest := keys - {x};
      LeastExists(rest);
      var m :| IsLeast(m, rest);
      SummaryKeyLeTotal(x, m);
      if SummaryKeyLe(x, m) {
        forall j | j in keys ensures SummaryKeyLe(x, j) {
          if j != x {
            SummaryKeyLeTransitive(x, m, j);
          }
        }
        assert IsLeast(x, keys);
      } else {
        forall j | j in keys ensures SummaryKeyLe(m, j) {
          if j != x {
            assert j in rest;
          }
        }
        assert IsLeast(m, keys);
      }
    }
  }

  /** The key that sorts first is unique. */
  lemma LeastUnique(keys: set<Option<string>>)
    ensures forall a, b :: IsLeast(a, keys) && IsLeast(b, keys) ==> a == b
  {
    SummaryKeyLeAntisymmetric();
  }

  /** Putting the least key in front of the sorted rest sorts the whole set. */
  lemma ConsLeast(k: Option<string>, keys: set<Option<string>>, rest: seq<Option<string>>)
    requires IsLeast(k, keys)
    requires |rest| == |keys - {k}|
    requires forall t :: t in rest <==> t in keys - {k}
    requires forall i, j :: 0 <= i < j < |rest| ==> SummaryKeyLe(rest[i], rest[j]) && rest[i] != rest[j]
    ensures var r := [k] + rest;
      && |r| == |keys|
      && (forall t :: t in r <==> t in keys)
      && (forall i, j :: 0 <= i < j < |r| ==> SummaryKeyLe(r[i], r[j]) && r[i] != r[j])
  {
    var r := [k] + rest;
    forall i, j | 0 <= i < j < |r| ensures SummaryKeyLe(r[i], r[j]) && r[i] != r[j] {
      assert r[j] == rest[j - 1] && rest[j - 1] in rest;
      if i > 0 {
        assert r[i] == rest[i - 1];
      }
    }
  }

  /** `sorted(tag_summaries.keys(), key=lambda t: (t is None, t))`. */
  function SortTags(keys: set<Option<string>>): (r: seq<Option<string>>)
    ensures |r| == |keys|
    ensures forall t :: t in r <==> t in keys
    ensures forall i, j :: 0 <= i < j < |r| ==> SummaryKeyLe(r[i], r[j]) && r[i] != r[j]
    decreases |keys|
  {
    if keys == {} then []
    else
      LeastExists(keys);
      LeastUnique(keys);
      var k :| IsLeast(k, keys);
      var rest := SortTags(keys - {k});
      ConsLeast(k, keys, rest);
      [k] + rest
  }

  /** In the sorted keys, no string tag comes after the untagged group. */
  lemma UntaggedSortsLast(keys: set<Option<string>>)
    requires None in keys
    ensures SortTags(keys)[|keys| - 1] == None
  {
    var r := SortTags(keys);
    var i :| 0 <= i < |r| && r[i] == None;
    if i < |r| - 1 {
      assert false;
    }
  }

  function TagLines(summaries: map<Option<string>, int>, tags: seq<Option<string>>): (r: seq<string>)
    requires forall t :: t in tags ==> t in summaries
  {
    seq(|tags|, i requires 0 <= i < |tags| => TagLine(tags[i], summaries[tags[i]]))
  }

  /** The lines `query_summary` prints for a summary dictionary and a grand total. */
  function SummaryLines(summaries: map<Option<string>, int>, grandTotal: int): seq<string> {
    if |summaries| == 0 && grandTotal == 0 then [NoStrikesYet]
    else
      [SummaryHeader] + TagLines(summaries, SortTags(summaries.Keys))
      + [SummarySeparator, GrandTotalLine(grandTotal)]
  }

  function GrandTotalLine(grandTotal: int): string {
    "Grand Total: " + IntToString(grandTotal) + " strikes"
  }

  /** Where the parts of a header, body and two-line footer land in the printed lines. */
  lemma FramedIndices(head: string, body: seq<string>, foot1: string, foot2: string)
    ensures var lines := [head] + body + [foot1, foot2];
      && |lines| == |body| + 3
      && lines[0] == head
      && (forall i :: 0 <= i < |body| ==> lines[i + 1] == body[i])
      && lines[|body| + 1] == foot1
      && lines[|body| + 2] == foot2
  {
    var lines := [head] + body + [foot1, foot2];
    forall i | 0 <= i < |body| ensures lines[i + 1] == body[i] {
      assert lines[i + 1] == ([head] + body)[i + 1];
    }
  }

  /**
   * Only the "no strikes" line for an empty summary with a zero total; otherwise a header,
   * one line per tag, a separator and the grand total.
   */
  lemma SummaryLinesShape(summaries: map<Option<string>, int>, grandTotal: int)
    ensures |summaries| == 0 && grandTotal == 0 ==> SummaryLines(summaries, grandTotal) == [NoStrikesYet]
    ensures !(|summaries| == 0 && grandTotal == 0) ==>
      var lines := SummaryLines(summaries, grandTotal);
      && |lines| == |summaries| + 3
      && lines[0] == SummaryHeader
      && lines[|lines| - 2] == SummarySeparator
      && lines[|lines| - 1] == GrandTotalLine(grandTotal)
  {
    if !(|summaries| == 0 && grandTotal == 0) {
      var body := TagLines(summaries, SortTags(summaries.Keys));
      FramedIndices(SummaryHeader, body, SummarySeparator, GrandTotalLine(grandTotal));
      assert |summaries| == |summaries.Keys|;
    }
  }

  /** The tag lines follow the sorted keys (string tags ascending), one line per key. */
  lemma SummaryLinesOrder(summaries: map<Option<string>, int>, grandTotal: int)
    requires !(|summaries| == 0 && grandTotal == 0)
    ensures var lines := SummaryLines(summaries, grandTotal);
      var tags := SortTags(summaries.Keys);
      |lines| == |tags| + 3
      && (forall i :: 0 <= i < |tags| ==> tags[i] in summaries && lines[i + 1] == TagLine(tags[i], summaries[tags[i]]))
  {
    var tags := SortTags(summaries.Keys);
    var body := TagLines(summaries, tags);
    var lines := [SummaryHeader] + body + [SummarySeparator, GrandTotalLine(grandTotal)];
    assert SummaryLines(summaries, grandTotal) == lines;
    FramedIndices(SummaryHeader, body, SummarySeparator, GrandTotalLine(grandTotal));
    forall i | 0 <= i < |tags|
      ensures tags[i] in summaries && lines[i + 1] == TagLine(tags[i], summaries[tags[i]])
    {
      assert tags[i] in tags;
      assert lines[i + 1] == body[i];
    }
  }

  /** The untagged group, when present, is the last tag line, just above the separator. */
  lemma SummaryUntaggedLast(summaries: map<Option<string>, int>, grandTotal: int)
    requires None in summaries
    ensures var lines := SummaryLines(summaries, grandTotal);
      |lines| >= 4 && lines[|lines| - 3] == TagLine(None, summaries[None])
  {
    var keys := summaries.Keys;
    assert None in keys;
    var tags := SortTags(keys);
    UntaggedSortsLast(keys);
    var n := |tags| - 1;
    assert tags[n] == None;
    var body := TagLines(summaries, tags);
    assert body[n] == TagLine(None, summaries[None]);
    var lines := [SummaryHeader] + body + [SummarySeparator, GrandTotalLine(grandTotal)];
    assert SummaryLines(summaries, grandTotal) == lines;
    FramedIndices(SummaryHeader, body, SummarySeparator, GrandTotalLine(grandTotal));
    assert lines[n + 1] == body[n];
  }

  class App {
    const db: Database

    /** `App(db_path, logger)`: opens the store. */
    constructor (stored: Option<Table>)
      requires stored.Some? ==> TableValid(stored.value)
      ensures fresh(db) && db.Valid()
      ensures db.Snapshot() == CreateTableIfNotExists(stored)
    {
      db := new Database(stored);
    }

    /**
     * Refuses a non-positive count with the ValueError's message and writes nothing;
     * otherwise writes one entry, tagged with the lower-cased session tag when it is truthy,
     * and returns the confirmation line.
     */
    method AddStrikeEntry(countToAdd: int, sessionTag: Option<string>, now: string)
      returns (r: Result<string, string>)
      requires db.Valid()
      modifies db
      ensures db.Valid()
      ensures countToAdd <= 0 ==> r == Failure(InvalidCount) && db.Snapshot() == old(db.Snapshot())
      ensures countToAdd > 0 ==>
        && r == Success(AddedMessage(countToAdd, ProcessTag(sessionTag)))
        && db.Snapshot() == InsertRow(old(db.Snapshot()), countToAdd, now, ProcessTag(sessionTag))
    {
      if countToAdd <= 0 {
        return Failure(InvalidCount);
      }
      var processedTag := ProcessTag(sessionTag);
      db.AddStrikeEntry(countToAdd, now, processedTag);
      r := Success(AddedMessage(countToAdd, processedTag));
    }

    /** The line printed for `--count` / `--filter-tag`. */
    method QueryTotalStrikes(filterTag: Option<string>) returns (line: string)
      ensures var total := TotalStrikes(db.rows, filterTag);
        && (Truthy(filterTag) && total > 0 ==>
              line == "Total strikes for tag '" + Lower(filterTag.value) + "': " + IntToString(total))
        && (Truthy(filterTag) && total <= 0 ==>
              line == "No strikes found for tag '" + Lower(filterTag.value) + "'.")
        && (!Truthy(filterTag) && total > 0 ==> line == "Total strikes: " + IntToString(total))
        && (!Truthy(filterTag) && total <= 0 ==> line == NoStrikesYet)
    {
      var processedFilterTag := ProcessTag(filterTag);
      var total := db.GetTotalStrikes(processedFilterTag);
      ProcessedFilterSameTotal(db.rows, filterTag);
      line := TotalMessage(processedFilterTag, total);
    }

    /** The lines printed for `--summary`. */
    method QuerySummary() returns (lines: seq<string>)
      ensures lines == SummaryLines(SummaryOf(db.rows), Sum(db.rows))
      ensures db.rows == [] ==> lines == [NoStrikesYet]
      ensures db.rows != [] ==>
        && lines[0] == SummaryHeader
        && lines[|lines| - 1] == GrandTotalLine(TotalStrikes(db.rows, None))
    {
      var summaries, grandTotal := db.GetSummaryByTag();
      TotalUnfiltered(db.rows, None);
      lines := SummaryLines(summaries, grandTotal);
      SummaryLinesShape(summaries, grandTotal);
      SummaryEmptyIff(db.rows);
    }
  }

  /** What one invocation leaves behind: exit status, printed lines, and the stored table. */
  datatype Outcome = Outcome(exitCode: int, stdout: seq<string>, stderr: seq<string>, stored: Option<Table>)

  function RowsOf(stored: Option<Table>): seq<Entry> {
    if stored.Some? then stored.value.rows else []
  }

  /**
   * What `main(argv)` does, from the parsed arguments. `stored` is the database file before
   * the run (`None`: no table yet), `now` the formatted UTC timestamp, and `fault` the message
   * of a storage failure raised while opening the database, if any.
   *
   * A usage error leaves through `parser.error` (`SystemExit(2)`) before the store is
   * touched; a ValueError becomes "Error: ..." and 1; any other exception becomes
   * "An unexpected error occurred: ..." and 1.
   */
  function MainOutcome(args: Args, stored: Option<Table>, now: string, fault: Option<string>): Outcome {
    match ValidateArgs(args)
    case Failure(e) => Outcome(2, [], [UsageMessage(e)], stored)
    case Success(a) =>
      if fault.Some? then Outcome(1, [], ["An unexpected error occurred: " + fault.value], stored)
      else
        var opening := CreateTableIfNotExists(stored);
        AcceptedDispatch(args);
        match Dispatch(a)
        case QuerySummary =>
          Outcome(0, SummaryLines(SummaryOf(opening.rows), Sum(opening.rows)), [], Some(opening))
        case QueryTotal(f) =>
          Outcome(0, [TotalMessage(ProcessTag(f), TotalStrikes(opening.rows, f))], [], Some(opening))
        case AddEntry(n, tag) =>
          if n <= 0 then Outcome(1, [], ["Error: " + InvalidCount], Some(opening))
          else Outcome(0, [AddedMessage(n, ProcessTag(tag))], [], Some(InsertRow(opening, n, now, ProcessTag(tag))))
  }

  /**
   * `main(argv)` itself: validation, then the application over the opened store, with each
   * outcome mapped to an exit status.
   */
  method Run(args: Args, stored: Option<Table>, now: string, fault: Option<string>) returns (o: Outcome)
    requires stored.Some? ==> TableValid(stored.value)
    ensures o == MainOutcome(args, stored, now, fault)
  {
    var validated := ValidateArgs(args);
    if validated.Failure? {
      return Outcome(2, [], [UsageMessage(validated.error)], stored);
    }
    if fault.Some? {
      return Outcome(1, [], ["An unexpected error occurred: " + fault.value], stored);
    }
    var a := validated.value;
    AcceptedDispatch(args);
    var app := new App(stored);
    ghost var opening := app.db.Snapshot();
    match Dispatch(a)
    case QuerySummary =>
      var lines := app.QuerySummary();
      o := Outcome(0, lines, [], Some(app.db.Snapshot()));
    case QueryTotal(f) =>
      var line := app.QueryTotalStrikes(f);
      ProcessedFilterSameTotal(opening.rows, f);
      o := Outcome(0, [line], [], Some(app.db.Snapshot()));
    case AddEntry(n, tag) =>
      var r := app.AddStrikeEntry(n, tag, now);
      if r.Success? {
        o := Outcome(0, [r.value], [], Some(app.db.Snapshot()));
      } else {
        o := Outcome(1, [], ["Error: " + r.error], Some(app.db.Snapshot()));
      }
  }

  /** An accepted record that asks to add a non-positive count. */
  predicate RefusedCount(a: Args) {
    Dispatch(a).AddEntry? && Dispatch(a).countToAdd <= 0
  }

  /**
   * The exit status is 2 exactly for a usage error, 0 for success, and 1 for a storage
   * fault or a non-positive count; a usage error leaves the store untouched.
   */
  lemma MainExitCodes(args: Args, stored: Option<Table>, now: string, fault: Option<string>)
    ensures var o := MainOutcome(args, stored, now, fault);
      && (o.exitCode == 0 || o.exitCode == 1 || o.exitCode == 2)
      && (o.exitCode == 2 <==> ValidateArgs(args).Failure?)
      && (o.exitCode == 2 ==> o.stored == stored && o.stdout == [])
      && (o.exitCode == 1 <==> (ValidateArgs(args).Success? && (fault.Some? || RefusedCount(ValidateArgs(args).value))))
      && (o.exitCode != 0 ==> |o.stderr| == 1 && RowsOf(o.stored) == RowsOf(stored))
  {
  }

  /**
   * The program keeps the stored table valid, and keeps the two facts the application
   * enforces before writing: every count is positive and every tag is lower-case.
   */
  lemma MainKeepsTableValid(args: Args, stored: Option<Table>, now: string, fault: Option<string>)
    requires stored.Some? ==> TableValid(stored.value)
    ensures var o := MainOutcome(args, stored, now, fault);
      o.stored.Some? ==> TableValid(o.stored.value)
    ensures var o := MainOutcome(args, stored, now, fault);
      AllPositive(RowsOf(stored)) && AllTagsLower(RowsOf(stored)) ==>
        AllPositive(RowsOf(o.stored)) && AllTagsLower(RowsOf(o.stored))
  {
    if ValidateArgs(args).Success? && fault.None? {
      var a := ValidateArgs(args).value;
      var opening := CreateTableIfNotExists(stored);
      assert opening.rows == RowsOf(stored);
      if Dispatch(a).AddEntry? && Dispatch(a).countToAdd > 0 {
        var n, tag := Dispatch(a).countToAdd, ProcessTag(Dispatch(a).sessionTag);
        InsertRowAppends(opening, n, now, tag);
        if AllPositive(RowsOf(stored)) && AllTagsLower(RowsOf(stored)) {
          InsertRowKeepsWriteInvariants(opening, n, now, tag);
        }
      }
    }
  }

  /**
   * The log is append-only: the only change a run makes is one new row, written by a
   * successful add, with a positive count, the given timestamp and a lower-case tag.
   */
  lemma MainAppendsOnly(args: Args, stored: Option<Table>, now: string, fault: Option<string>)
    requires stored.Some? ==> TableValid(stored.value)
    ensures var o := MainOutcome(args, stored, now, fault);
      var before := RowsOf(stored);
      o.stored.Some? && o.stored.value.rows != before ==>
        && o.exitCode == 0
        && Dispatch(ValidateArgs(args).value).AddEntry?
        && |o.stored.value.rows| == |before| + 1
        && o.stored.value.rows[..|before|] == before
        && o.stored.value.rows[|before|].strikesCount > 0
        && o.stored.value.rows[|before|].entryDatetime == now
        && ProcessTag(o.stored.value.rows[|before|].tag) == o.stored.value.rows[|before|].tag
  {
    if ValidateArgs(args).Success? && fault.None? {
      var a := ValidateArgs(args).value;
      var opening := CreateTableIfNotExists(stored);
      if Dispatch(a).AddEntry? && Dispatch(a).countToAdd > 0 {
        var tag := ProcessTag(Dispatch(a).sessionTag);
        InsertRowAppends(opening, Dispatch(a).countToAdd, now, tag);
        if tag.Some? {
          LowerIdempotent(tag.value);
        }
      }
    }
  }

  /** An empty store: totals are 0, the summary is empty and prints one line, no details. */
  lemma EmptyStoreScenario(filter: Option<string>)
    ensures var t := CreateTableIfNotExists(None);
      && TotalStrikes(t.rows, filter) == 0
      && SummaryOf(t.rows) == map[]
      && Details(t.rows, filter) == []
      && SummaryLines(SummaryOf(t.rows), Sum(t.rows)) == [NoStrikesYet]
  {
    var t := CreateTableIfNotExists(None);
    assert SummaryOf(t.rows) == map[];
    SummaryLinesShape(map[], 0);
  }

  /**
   * Adding 5 untagged, 3 as "gym" and 7 as "GYM" through the application stores the second
   * tag folded to "gym".
   */
  lemma GymInserts(d1: string, d2: string, d3: string)
    ensures InsertRow(InsertRow(InsertRow(CreateTableIfNotExists(None),
                5, d1, ProcessTag(None)), 3, d2, ProcessTag(Some("gym"))), 7, d3, ProcessTag(Some("GYM"))).rows
         == GymLog(d1, d2, d3)
  {
    GymSpelling();
  }

  function GymLog(d1: string, d2: string, d3: string): seq<Entry> {
    [Entry(1, 5, d1, None), Entry(2, 3, d2, Some("gym")), Entry(3, 7, d3, Some("gym"))]
  }

  /** Both tagged entries match either spelling of the filter; the untagged one matches none. */
  lemma GymTotals(d1: string, d2: string, d3: string)
    ensures TotalStrikes(GymLog(d1, d2, d3), None) == 15
    ensures TotalStrikes(GymLog(d1, d2, d3), Some("gym")) == 10
    ensures TotalStrikes(GymLog(d1, d2, d3), Some("GYM")) == 10
  {
    GymSpelling();
    var rows := GymLog(d1, d2, d3);
    TotalOfThree(rows[0], rows[1], rows[2], None);
    TotalOfThree(rows[0], rows[1], rows[2], Some("gym"));
    TotalOfThree(rows[0], rows[1], rows[2], Some("GYM"));
  }

  /** The summary has one untagged group and one "gym" group. */
  lemma GymSummary(d1: string, d2: string, d3: string)
    ensures SummaryOf(GymLog(d1, d2, d3)) == map[None := 5, Some("gym") := 10]
  {
    var rows := GymLog(d1, d2, d3);
    TagSumOfThree(rows[0], rows[1], rows[2], None);
    TagSumOfThree(rows[0], rows[1], rows[2], Some("gym"));
    assert TagsOf(rows) == {None, Some("gym")} by {
      assert rows[0] in rows && rows[1] in rows;
    }
  }

  /** A three-row log totals the counts of the rows the filter keeps. */
  lemma TotalOfThree(e1: Entry, e2: Entry, e3: Entry, f: Option<string>)
    ensures TotalStrikes([e1, e2, e3], f)
         == (if Selected(e1, f) then e1.strikesCount else 0)
          + (if Selected(e2, f) then e2.strikesCount else 0)
          + (if Selected(e3, f) then e3.strikesCount else 0)
  {
    assert [] + [e1] == [e1] && [e1] + [e2] == [e1, e2] && [e1, e2] + [e3] == [e1, e2, e3];
    TotalAppend([], e1, f);
    TotalAppend([e1], e2, f);
    TotalAppend([e1, e2], e3, f);
  }

  /** A three-row log's group for `t` totals the rows stored with exactly that tag. */
  lemma TagSumOfThree(e1: Entry, e2: Entry, e3: Entry, t: Option<string>)
    ensures TagSum([e1, e2, e3], t)
         == (if e1.tag == t then e1.strikesCount else 0)
          + (if e2.tag == t then e2.strikesCount else 0)
          + (if e3.tag == t then e3.strikesCount else 0)
  {
    assert [] + [e1] == [e1] && [e1] + [e2] == [e1, e2] && [e1, e2] + [e3] == [e1, e2, e3];
    TagSumAppend([], e1, t);
    TagSumAppend([e1], e2, t);
    TagSumAppend([e1, e2], e3, t);
  }

  lemma GymSpelling()
    ensures Lower("GYM") == "gym" && Lower("gym") == "gym"
  {
    assert Lower("GYM")[0] == 'g' && Lower("GYM")[1] == 'y' && Lower("GYM")[2] == 'm';
    assert Lower("gym")[0] == 'g' && Lower("gym")[1] == 'y' && Lower("gym")[2] == 'm';
  }
}
