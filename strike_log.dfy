/**
 * The meaning of the SQL statements that `Database` runs against the `strike_log` table,
 * stated over the table's rows in insertion order: the `WHERE LOWER(tag) = ?` filter, the
 * `SUM(strikes_count)` total, the `GROUP BY tag` summary and the
 * `ORDER BY LOWER(tag) ASC, entry_datetime DESC` detail listing.
 */
module StrikeLog {
  import opened Wrappers
  import opened Text

  /** One row of `strike_log`; `entryDatetime` is the stored ISO-8601 text. */
  datatype Entry = Entry(id: int, strikesCount: int, entryDatetime: string, tag: Option<string>)

  /** One row of the detail query: `SELECT tag, entry_datetime, strikes_count`. */
  datatype DetailRow = DetailRow(tag: Option<string>, entryDatetime: string, strikesCount: int)

  /** Every row carries a positive count (what the application enforces before writing). */
  predicate AllPositive(rows: seq<Entry>) {
    forall e :: e in rows ==> e.strikesCount > 0
  }

  /** Every stored tag is already lower-case (what the application enforces before writing). */
  predicate AllTagsLower(rows: seq<Entry>) {
    forall e :: e in rows && e.tag.Some? ==> Lower(e.tag.value) == e.tag.value
  }

  // ---------------------------------------------------------------- filter

  /** `LOWER(tag) = key`: a NULL tag never compares equal. */
  predicate MatchesTag(e: Entry, key: string) {
    e.tag.Some? && Lower(e.tag.value) == key
  }

  /**
   * The WHERE clause shared by the total and the detail query: added only when the filter
   * is truthy, and then comparing against the lower-cased filter.
   */
  predicate Selected(e: Entry, filter: Option<string>) {
    !Truthy(filter) || MatchesTag(e, Lower(filter.value))
  }

  function Filter(rows: seq<Entry>, filter: Option<string>): (r: seq<Entry>)
    ensures |r| <= |rows|
    ensures forall e :: e in r <==> e in rows && Selected(e, filter)
  {
    if rows == [] then []
    else
      var init, last := rows[..|rows| - 1], rows[|rows| - 1];
      assert rows == init + [last];
      if Selected(last, filter) then Filter(init, filter) + [last] else Filter(init, filter)
  }

  /** The filter keeps every copy of a selected row and no copy of any other row. */
  lemma {:induction false} FilterCounts(rows: seq<Entry>, filter: Option<string>)
    ensures forall e :: multiset(Filter(rows, filter))[e] == if Selected(e, filter) then multiset(rows)[e] else 0
  {
    if rows != [] {
      var init, last := rows[..|rows| - 1], rows[|rows| - 1];
      assert rows == init + [last];
      FilterCounts(init, filter);
      assert multiset(rows) == multiset(init) + multiset{last};
    }
  }

  // ---------------------------------------------------------------- totals

  /** `SUM(strikes_count)`, with 0 for no rows (the `COALESCE`-like `else 0` in Python). */
  function Sum(rows: seq<Entry>): int {
    if rows == [] then 0 else Sum(rows[..|rows| - 1]) + rows[|rows| - 1].strikesCount
  }

  /** `get_total_strikes(tag)`. */
  function TotalStrikes(rows: seq<Entry>, filter: Option<string>): int {
    Sum(Filter(rows, filter))
  }

  /** Reference definition of the filtered total: each row adds its count when it is kept. */
  function SumSelected(rows: seq<Entry>, filter: Option<string>): int {
    if rows == [] then 0
    else (if Selected(rows[0], filter) then rows[0].strikesCount else 0) + SumSelected(rows[1..], filter)
  }

  lemma {:induction false} SumAppend(rows: seq<Entry>, e: Entry)
    ensures Sum(rows + [e]) == Sum(rows) + e.strikesCount
  {
    assert (rows + [e])[..|rows|] == rows;
  }

  lemma {:induction false} SumSelectedAppend(rows: seq<Entry>, e: Entry, filter: Option<string>)
    ensures SumSelected(rows + [e], filter)
         == SumSelected(rows, filter) + (if Selected(e, filter) then e.strikesCount else 0)
  {
    if rows != [] {
      assert (rows + [e])[1..] == rows[1..] + [e];
      SumSelectedAppend(rows[1..], e, filter);
    }
  }

  /** The total is exactly the sum of the counts of the rows the WHERE clause keeps. */
  lemma {:induction false} TotalStrikesIsSumOfSelected(rows: seq<Entry>, filter: Option<string>)
    ensures TotalStrikes(rows, filter) == SumSelected(rows, filter)
  {
    if rows != [] {
      var init, last := rows[..|rows| - 1], rows[|rows| - 1];
      assert rows == init + [last];
      TotalStrikesIsSumOfSelected(init, filter);
      SumSelectedAppend(init, last, filter);
      if Selected(last, filter) {
        SumAppend(Filter(init, filter), last);
      }
    }
  }

  /** Appending a row adds its count to every total whose filter keeps it, and nothing else. */
  lemma TotalAppend(rows: seq<Entry>, e: Entry, filter: Option<string>)
    ensures TotalStrikes(rows + [e], filter)
         == TotalStrikes(rows, filter) + (if Selected(e, filter) then e.strikesCount else 0)
  {
    TotalStrikesIsSumOfSelected(rows + [e], filter);
    TotalStrikesIsSumOfSelected(rows, filter);
    SumSelectedAppend(rows, e, filter);
  }

  /** With no filter, or the empty string as filter, every row counts. */
  lemma {:induction false} TotalUnfiltered(rows: seq<Entry>, filter: Option<string>)
    requires !Truthy(filter)
    ensures TotalStrikes(rows, filter) == Sum(rows)
  {
    if rows != [] {
      var init, last := rows[..|rows| - 1], rows[|rows| - 1];
      assert rows == init + [last];
      TotalUnfiltered(init, filter);
      SumAppend(Filter(init, filter), last);
    }
  }

  /** Two filters that keep the same rows give the same rows back. */
  lemma {:induction false} FilterSameSelection(rows: seq<Entry>, f: Option<string>, g: Option<string>)
    requires forall e :: Selected(e, f) == Selected(e, g)
    ensures Filter(rows, f) == Filter(rows, g)
  {
    if rows != [] {
      FilterSameSelection(rows[..|rows| - 1], f, g);
    }
  }

  /** The filter is case-insensitive: `t`, `lower(t)` and `upper(t)` give the same total. */
  lemma TotalCaseInsensitive(rows: seq<Entry>, t: string)
    ensures TotalStrikes(rows, Some(t)) == TotalStrikes(rows, Some(Lower(t)))
    ensures TotalStrikes(rows, Some(t)) == TotalStrikes(rows, Some(Upper(t)))
  {
    LowerIdempotent(t);
    LowerOfUpper(t);
    FilterSameSelection(rows, Some(t), Some(Lower(t)));
    FilterSameSelection(rows, Some(t), Some(Upper(t)));
  }

  lemma {:induction false} SumOfPositive(rows: seq<Entry>)
    requires AllPositive(rows)
    ensures Sum(rows) >= 0
    ensures Sum(rows) > 0 <==> rows != []
  {
    if rows != [] {
      var init := rows[..|rows| - 1];
      assert rows == init + [rows[|rows| - 1]];
      SumOfPositive(init);
    }
  }

  /** Over positive counts, a total is zero exactly when no row matches the filter. */
  lemma PositiveTotal(rows: seq<Entry>, filter: Option<string>)
    requires AllPositive(rows)
    ensures TotalStrikes(rows, filter) >= 0
    ensures TotalStrikes(rows, filter) == 0 <==> forall e :: e in rows ==> !Selected(e, filter)
  {
    var kept := Filter(rows, filter);
    SumOfPositive(kept);
    if kept != [] {
      assert kept[0] in kept;
    }
  }

  // ---------------------------------------------------------------- summary

  /** `SUM(strikes_count)` over the rows whose stored tag is exactly `tag` (NULL with NULL). */
  function TagSum(rows: seq<Entry>, tag: Option<string>): int {
    if rows == [] then 0
    else TagSum(rows[..|rows| - 1], tag) + (if rows[|rows| - 1].tag == tag then rows[|rows| - 1].strikesCount else 0)
  }

  lemma TagSumAppend(rows: seq<Entry>, e: Entry, tag: Option<string>)
    ensures TagSum(rows + [e], tag) == TagSum(rows, tag) + (if e.tag == tag then e.strikesCount else 0)
  {
    assert (rows + [e])[..|rows|] == rows;
  }

  /** The distinct stored tag values, `None` standing for the NULL group. */
  function TagsOf(rows: seq<Entry>): set<Option<string>> {
    set e | e in rows :: e.tag
  }

  /** The dictionary `get_summary_by_tag` returns: one key per `GROUP BY tag` group. */
  function SummaryOf(rows: seq<Entry>): map<Option<string>, int> {
    map t | t in TagsOf(rows) :: TagSum(rows, t)
  }

  /** The summary has no group exactly when the log is empty. */
  lemma SummaryEmptyIff(rows: seq<Entry>)
    ensures |SummaryOf(rows)| == 0 <==> rows == []
  {
    if rows != [] {
      assert rows[0] in rows;
      assert rows[0].tag in SummaryOf(rows);
    } else {
      assert SummaryOf(rows) == map[];
    }
  }

  /** The summary's keys are the stored tag values; `None` is one iff some row is untagged. */
  lemma SummaryKeys(rows: seq<Entry>)
    ensures forall t :: t in SummaryOf(rows) <==> exists e :: e in rows && e.tag == t
    ensures None in SummaryOf(rows) <==> exists e :: e in rows && e.tag.None?
  {
  }

  /** A dictionary with the summary's keys and the group totals as values is the summary. */
  lemma SummaryCharacterised(rows: seq<Entry>, m: map<Option<string>, int>)
    requires forall t :: t in m <==> t in TagsOf(rows)
    requires forall t :: t in m ==> m[t] == TagSum(rows, t)
    ensures m == SummaryOf(rows)
  {
    assert m.Keys == SummaryOf(rows).Keys;
  }

  /** The groups of `GROUP BY tag`, each tag once, in order of first appearance. */
  function DistinctTags(rows: seq<Entry>): (ts: seq<Option<string>>)
    ensures forall i, j :: 0 <= i < j < |ts| ==> ts[i] != ts[j]
    ensures forall t :: t in ts <==> t in TagsOf(rows)
  {
    if rows == [] then []
    else
      var init, last := rows[..|rows| - 1], rows[|rows| - 1];
      assert rows == init + [last];
      assert TagsOf(rows) == TagsOf(init) + {last.tag};
      var ts := DistinctTags(init);
      if last.tag in ts then ts else ts + [last.tag]
  }

  /** One result row of `SELECT tag, SUM(strikes_count) FROM strike_log GROUP BY tag`. */
  datatype TagTotal = TagTotal(tag: Option<string>, total: int)

  /**
   * The result rows of the grouped query: one per distinct stored tag (in `DistinctTags`
   * order), each carrying the sum over the rows with exactly that tag.
   */
  function GroupRows(rows: seq<Entry>): (g: seq<TagTotal>)
    ensures forall i, j :: 0 <= i < j < |g| ==> g[i].tag != g[j].tag
    ensures forall t :: t in TagsOf(rows) <==> exists i :: 0 <= i < |g| && g[i].tag == t
    ensures forall i :: 0 <= i < |g| ==> g[i].total == TagSum(rows, g[i].tag)
    ensures |g| == |DistinctTags(rows)| && forall i :: 0 <= i < |g| ==> g[i].tag == DistinctTags(rows)[i]
  {
    var ts := DistinctTags(rows);
    var g := seq(|ts|, i requires 0 <= i < |ts| => TagTotal(ts[i], TagSum(rows, ts[i])));
    forall t | t in ts ensures exists i :: 0 <= i < |g| && g[i].tag == t {
      var i :| 0 <= i < |ts| && ts[i] == t;
      assert g[i].tag == t;
    }
    g
  }

  /** The sum of the group totals of the listed tags. */
  function SumOverTags(rows: seq<Entry>, ts: seq<Option<string>>): int {
    if ts == [] then 0 else SumOverTags(rows, ts[..|ts| - 1]) + TagSum(rows, ts[|ts| - 1])
  }

  /** Extending a prefix of the tag list by one tag adds that tag's group total. */
  lemma SumOverTagsPrefixStep(rows: seq<Entry>, ts: seq<Option<string>>, i: int)
    requires 0 <= i < |ts|
    ensures SumOverTags(rows, ts[..i + 1]) == SumOverTags(rows, ts[..i]) + TagSum(rows, ts[i])
  {
    assert ts[..i + 1][..i] == ts[..i];
  }

  lemma {:induction false} TagSumAbsent(rows: seq<Entry>, t: Option<string>)
    requires t !in TagsOf(rows)
    ensures TagSum(rows, t) == 0
  {
    if rows != [] {
      var init := rows[..|rows| - 1];
      assert rows == init + [rows[|rows| - 1]];
      assert TagsOf(init) <= TagsOf(rows);
      TagSumAbsent(init, t);
    }
  }

  lemma {:induction false} SumOverTagsAppendRow(rows: seq<Entry>, e: Entry, ts: seq<Option<string>>)
    requires forall i, j :: 0 <= i < j < |ts| ==> ts[i] != ts[j]
    ensures SumOverTags(rows + [e], ts)
         == SumOverTags(rows, ts) + (if e.tag in ts then e.strikesCount else 0)
  {
    if ts != [] {
      var front, x := ts[..|ts| - 1], ts[|ts| - 1];
      assert ts == front + [x];
      assert (rows + [e])[..|rows|] == rows;
      SumOverTagsAppendRow(rows, e, front);
    }
  }

  /** The group totals add up to the grand total: every row lies in exactly one group. */
  lemma {:induction false} GroupTotalsAddUp(rows: seq<Entry>)
    ensures SumOverTags(rows, DistinctTags(rows)) == Sum(rows)
  {
    if rows != [] {
      var init, last := rows[..|rows| - 1], rows[|rows| - 1];
      assert rows == init + [last];
      var ts := DistinctTags(init);
      GroupTotalsAddUp(init);
      SumOverTagsAppendRow(init, last, ts);
      assert SumOverTags(rows, ts) == Sum(init) + (if last.tag in ts then last.strikesCount else 0);
      if last.tag in ts {
        assert DistinctTags(rows) == ts;
      } else {
        var ts' := ts + [last.tag];
        assert DistinctTags(rows) == ts';
        assert ts'[..|ts|] == ts;
        assert SumOverTags(rows, ts') == SumOverTags(rows, ts) + TagSum(rows, last.tag);
        TagSumAbsent(init, last.tag);
        assert TagSum(rows, last.tag) == TagSum(init, last.tag) + last.strikesCount;
      }
    }
  }

  /**
   * Since stored tags are lower-case, the summary group of a lower-case tag holds exactly
   * the rows `get_total_strikes` counts for that tag.
   */
  lemma {:induction false} GroupAgreesWithFilteredTotal(rows: seq<Entry>, t: string)
    requires AllTagsLower(rows)
    requires t != [] && Lower(t) == t
    ensures TagSum(rows, Some(t)) == TotalStrikes(rows, Some(t))
  {
    if rows != [] {
      var init, last := rows[..|rows| - 1], rows[|rows| - 1];
      assert rows == init + [last];
      assert last in rows;
      GroupAgreesWithFilteredTotal(init, t);
      TotalAppend(init, last, Some(t));
    }
  }

  // ---------------------------------------------------------------- details

  /** `LOWER(tag)`, NULL staying NULL. */
  function LowerKey(tag: Option<string>): Option<string> {
    if tag.None? then None else Some(Lower(tag.value))
  }

  /** SQLite's ascending order on nullable text: NULL first, then lexicographic. */
  predicate NullsFirstLe(a: Option<string>, b: Option<string>) {
    a.None? || (b.Some? && StrLe(a.value, b.value))
  }

  /** `ORDER BY LOWER(tag) ASC, entry_datetime DESC`: may `x` be listed before `y`? */
  predicate DetailLe(x: DetailRow, y: DetailRow) {
    if LowerKey(x.tag) != LowerKey(y.tag) then NullsFirstLe(LowerKey(x.tag), LowerKey(y.tag))
    else StrLe(y.entryDatetime, x.entryDatetime)
  }

  predicate DetailsOrdered(s: seq<DetailRow>) {
    forall i, j :: 0 <= i < j < |s| ==> DetailLe(s[i], s[j])
  }

  lemma NullsFirstLeTotal(a: Option<string>, b: Option<string>)
    ensures NullsFirstLe(a, b) || NullsFirstLe(b, a)
  {
    if a.Some? && b.Some? {
      StrLeTotal(a.value, b.value);
    }
  }

  lemma NullsFirstLeAntisymmetric(a: Option<string>, b: Option<string>)
    requires NullsFirstLe(a, b) && NullsFirstLe(b, a)
    ensures a == b
  {
    if a.Some? {
      StrLeAntisymmetric(a.value, b.value);
    }
  }

  lemma DetailLeTotal(x: DetailRow, y: DetailRow)
    ensures DetailLe(x, y) || DetailLe(y, x)
  {
    NullsFirstLeTotal(LowerKey(x.tag), LowerKey(y.tag));
    StrLeTotal(x.entryDatetime, y.entryDatetime);
  }

  lemma DetailLeTransitive(x: DetailRow, y: DetailRow, z: DetailRow)
    requires DetailLe(x, y) && DetailLe(y, z)
    ensures DetailLe(x, z)
  {
    var kx, ky, kz := LowerKey(x.tag), LowerKey(y.tag), LowerKey(z.tag);
    if kx == ky && ky == kz {
      StrLeTransitive(z.entryDatetime, y.entryDatetime, x.entryDatetime);
    } else if kx != ky && ky != kz {
      if kx.Some? && kz.Some? {
        StrLeTransitive(kx.value, ky.value, kz.value);
      }
      if kx == kz {
        NullsFirstLeAntisymmetric(kx, ky);
      }
    }
  }

  /** Inserts `x` into a listing, before the first row it may precede. */
  function InsertDetail(x: DetailRow, s: seq<DetailRow>): (r: seq<DetailRow>)
    ensures multiset(r) == multiset(s) + multiset{x}
  {
    if s == [] then [x]
    else if DetailLe(x, s[0]) then [x] + s
    else
      assert s == [s[0]] + s[1..];
      [s[0]] + InsertDetail(x, s[1..])
  }

  /** Every row of a listing with `x` inserted is `x` or a row of the listing. */
  lemma InsertDetailElements(x: DetailRow, s: seq<DetailRow>, d: DetailRow)
    requires d in InsertDetail(x, s)
    ensures d == x || d in s
  {
    assert d in multiset(InsertDetail(x, s));
  }

  /** When `x` goes past the head, the head still precedes every row after it. */
  lemma InsertDetailPastHead(x: DetailRow, s: seq<DetailRow>)
    requires s != [] && DetailsOrdered(s) && !DetailLe(x, s[0])
    ensures forall d :: d in InsertDetail(x, s[1..]) ==> DetailLe(s[0], d)
  {
    DetailLeTotal(x, s[0]);
    forall d | d in InsertDetail(x, s[1..]) ensures DetailLe(s[0], d) {
      InsertDetailElements(x, s[1..], d);
      if d != x {
        var m :| 0 <= m < |s[1..]| && s[1..][m] == d;
        assert s[m + 1] == d;
      }
    }
  }

  lemma {:induction false} InsertDetailOrdered(x: DetailRow, s: seq<DetailRow>)
    requires DetailsOrdered(s)
    ensures DetailsOrdered(InsertDetail(x, s))
  {
    if s == [] {
    } else if DetailLe(x, s[0]) {
      forall k | 0 < k < |s| ensures DetailLe(x, s[k]) {
        DetailLeTransitive(x, s[0], s[k]);
      }
    } else {
      var rest := InsertDetail(x, s[1..]);
      InsertDetailOrdered(x, s[1..]);
      InsertDetailPastHead(x, s);
      var r := [s[0]] + rest;
      assert InsertDetail(x, s) == r;
      forall i, j | 0 <= i < j < |r| ensures DetailLe(r[i], r[j]) {
        assert r[j] == rest[j - 1];
        if i == 0 {
          assert rest[j - 1] in rest;
        } else {
          assert r[i] == rest[i - 1];
        }
      }
    }
  }

  /** The database engine's sort, as an insertion sort (ties may come out in any order). */
  function SortDetails(s: seq<DetailRow>): (r: seq<DetailRow>)
    ensures multiset(r) == multiset(s)
    ensures DetailsOrdered(r)
  {
    if s == [] then []
    else
      assert s == [s[0]] + s[1..];
      var sorted := SortDetails(s[1..]);
      InsertDetailOrdered(s[0], sorted);
      InsertDetail(s[0], sorted)
  }

  function ToDetail(e: Entry): DetailRow {
    DetailRow(e.tag, e.entryDatetime, e.strikesCount)
  }

  function Project(rows: seq<Entry>): seq<DetailRow> {
    seq(|rows|, i requires 0 <= i < |rows| => ToDetail(rows[i]))
  }

  /** `get_strike_details(tag)`. */
  function Details(rows: seq<Entry>, filter: Option<string>): seq<DetailRow> {
    SortDetails(Project(Filter(rows, filter)))
  }

  /**
   * The listing holds exactly the kept rows (as a multiset), orders them by lower-cased tag
   * with untagged rows first and, within one lower-cased tag, newest timestamp first, and is
   * empty exactly when no row is kept.
   */
  lemma DetailsSpec(rows: seq<Entry>, filter: Option<string>)
    ensures multiset(Details(rows, filter)) == multiset(Project(Filter(rows, filter)))
    ensures |Details(rows, filter)| == |Filter(rows, filter)|
    ensures var r := Details(rows, filter);
      forall i, j :: 0 <= i < j < |r| ==> NullsFirstLe(LowerKey(r[i].tag), LowerKey(r[j].tag))
    ensures var r := Details(rows, filter);
      forall i, j :: 0 <= i < j < |r| && LowerKey(r[i].tag) == LowerKey(r[j].tag)
        ==> StrLe(r[j].entryDatetime, r[i].entryDatetime)
    ensures var r := Details(rows, filter);
      forall i, j :: 0 <= i < j < |r| && r[j].tag.None? ==> r[i].tag.None?
    ensures Details(rows, filter) == [] <==> forall e :: e in rows ==> !Selected(e, filter)
  {
    var r := Details(rows, filter);
    var kept := Filter(rows, filter);
    assert |r| == |multiset(r)| == |multiset(Project(kept))| == |kept|;
    forall i, j | 0 <= i < j < |r| ensures NullsFirstLe(LowerKey(r[i].tag), LowerKey(r[j].tag)) {
      assert DetailLe(r[i], r[j]);
      if LowerKey(r[i].tag).Some? {
        StrLeReflexive(LowerKey(r[i].tag).value);
      }
    }
    if kept != [] {
      assert kept[0] in kept;
    }
  }

  /** A row of the listing really is a row of the log that the filter keeps. */
  lemma DetailsFromLog(rows: seq<Entry>, filter: Option<string>, d: DetailRow)
    requires d in Details(rows, filter)
    ensures exists e :: e in rows && Selected(e, filter) && ToDetail(e) == d
  {
    var kept := Filter(rows, filter);
    assert d in multiset(Project(kept));
    var i :| 0 <= i < |kept| && Project(kept)[i] == d;
    assert kept[i] in kept;
  }
}
