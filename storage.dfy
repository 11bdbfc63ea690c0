/**
 * The `Database` class: the `strike_log` table held in memory instead of in an SQLite file.
 * A `Table` value is the persistent state between invocations; `nextId` plays the part of
 * SQLite's AUTOINCREMENT counter (one more than the largest id ever handed out).
 */
module Storage {
  import opened Wrappers
  import opened Text
  import opened StrikeLog

  datatype Table = Table(rows: seq<Entry>, nextId: int)

  /** Ids start at 1, stay below the counter and increase in insertion order. */
  predicate TableValid(t: Table) {
    && t.nextId >= 1
    && (forall i :: 0 <= i < |t.rows| ==> 1 <= t.rows[i].id < t.nextId)
    && (forall i, j :: 0 <= i < j < |t.rows| ==> t.rows[i].id < t.rows[j].id)
  }

  /** `CREATE TABLE IF NOT EXISTS strike_log (...)`, over a file that may or may not hold it. */
  function CreateTableIfNotExists(existing: Option<Table>): (t: Table)
    ensures existing.Some? ==> t == existing.value
    ensures existing.None? ==> t.rows == [] && TableValid(t)
  {
    if existing.Some? then existing.value else Table([], 1)
  }

  /** Opening an existing log again changes nothing: the statement is idempotent. */
  lemma InitializeIdempotent(existing: Option<Table>)
    ensures CreateTableIfNotExists(Some(CreateTableIfNotExists(existing))) == CreateTableIfNotExists(existing)
    ensures existing.Some? ==> CreateTableIfNotExists(existing).rows == existing.value.rows
  {
  }

  /** `INSERT INTO strike_log (strikes_count, entry_datetime, tag) VALUES (?, ?, ?)`. */
  function InsertRow(t: Table, strikesCount: int, entryDatetime: string, tag: Option<string>): Table {
    Table(t.rows + [Entry(t.nextId, strikesCount, entryDatetime, tag)], t.nextId + 1)
  }

  /**
   * An insert appends exactly one row carrying the given values; the earlier rows are kept
   * as they were; the new id is larger than every id already in the log.
   */
  lemma InsertRowAppends(t: Table, strikesCount: int, entryDatetime: string, tag: Option<string>)
    requires TableValid(t)
    ensures var r := InsertRow(t, strikesCount, entryDatetime, tag);
      && TableValid(r)
      && |r.rows| == |t.rows| + 1
      && r.rows[..|t.rows|] == t.rows
      && r.rows[|t.rows|].strikesCount == strikesCount
      && r.rows[|t.rows|].entryDatetime == entryDatetime
      && r.rows[|t.rows|].tag == tag
      && (forall e :: e in t.rows ==> e.id < r.rows[|t.rows|].id)
  {
    var r := InsertRow(t, strikesCount, entryDatetime, tag);
    assert r.rows[..|t.rows|] == t.rows;
  }

  /** Inserting a positive count with a lower-case tag keeps both write-time facts. */
  lemma InsertRowKeepsWriteInvariants(t: Table, strikesCount: int, entryDatetime: string, tag: Option<string>)
    requires AllPositive(t.rows) && AllTagsLower(t.rows)
    requires strikesCount > 0 && (tag.Some? ==> Lower(tag.value) == tag.value)
    ensures AllPositive(InsertRow(t, strikesCount, entryDatetime, tag).rows)
    ensures AllTagsLower(InsertRow(t, strikesCount, entryDatetime, tag).rows)
  {
    var e := Entry(t.nextId, strikesCount, entryDatetime, tag);
    assert InsertRow(t, strikesCount, entryDatetime, tag).rows == t.rows + [e];
    forall x | x in t.rows + [e] ensures x == e || x in t.rows {
    }
  }

  /** The unfiltered total grows by exactly the inserted count. */
  lemma InsertRowGrowsTotal(t: Table, strikesCount: int, entryDatetime: string, tag: Option<string>)
    ensures TotalStrikes(InsertRow(t, strikesCount, entryDatetime, tag).rows, None)
         == TotalStrikes(t.rows, None) + strikesCount
  {
    TotalAppend(t.rows, Entry(t.nextId, strikesCount, entryDatetime, tag), None);
  }

  class Database {
    var rows: seq<Entry>
    var nextId: int

    function Snapshot(): Table
      reads this
    {
      Table(rows, nextId)
    }

    ghost predicate Valid()
      reads this
    {
      TableValid(Snapshot())
    }

    /** `Database(db_path)`: opens the file and runs `_initialize_db`. */
    constructor (existing: Option<Table>)
      requires existing.Some? ==> TableValid(existing.value)
      ensures Valid()
      ensures Snapshot() == CreateTableIfNotExists(existing)
    {
      var t := CreateTableIfNotExists(existing);
      rows := t.rows;
      nextId := t.nextId;
    }

    /** No validation here: the caller is responsible for a positive count. */
    method AddStrikeEntry(strikesCount: int, entryDatetime: string, tag: Option<string>)
      requires Valid()
      modifies this
      ensures Valid()
      ensures Snapshot() == InsertRow(old(Snapshot()), strikesCount, entryDatetime, tag)
    {
      InsertRowAppends(Snapshot(), strikesCount, entryDatetime, tag);
      rows := rows + [Entry(nextId, strikesCount, entryDatetime, tag)];
      nextId := nextId + 1;
    }

    method GetTotalStrikes(tag: Option<string>) returns (total: int)
      ensures total == TotalStrikes(rows, tag)
      ensures !Truthy(tag) ==> total == Sum(rows)
      ensures rows == [] ==> total == 0
    {
      total := TotalStrikes(rows, tag);
      if !Truthy(tag) {
        TotalUnfiltered(rows, tag);
      }
    }

    /**
     * Runs the `GROUP BY tag` query and folds its rows into a dictionary and a grand total,
     * as the Python loop does.
     */
    method GetSummaryByTag() returns (summaries: map<Option<string>, int>, grandTotal: int)
      ensures summaries == SummaryOf(rows)
      ensures forall t :: t in summaries <==> exists e :: e in rows && e.tag == t
      ensures None in summaries <==> exists e :: e in rows && e.tag.None?
      ensures forall t :: t in summaries ==> summaries[t] == TagSum(rows, t)
      ensures grandTotal == TotalStrikes(rows, None)
      ensures grandTotal == SumOverTags(rows, DistinctTags(rows))
    {
      var groups := GroupRows(rows);
      ghost var tags := DistinctTags(rows);
      summaries := map[];
      grandTotal := 0;
      var i := 0;
      while i < |groups|
        invariant 0 <= i <= |groups|
        invariant forall t :: t in summaries <==> t in tags[..i]
        invariant forall t :: t in summaries ==> summaries[t] == TagSum(rows, t)
        invariant grandTotal == SumOverTags(rows, tags[..i])
      {
        var g := groups[i];
        SumOverTagsPrefixStep(rows, tags, i);
        assert tags[..i + 1] == tags[..i] + [g.tag];
        summaries := summaries[g.tag := g.total];
        grandTotal := grandTotal + g.total;
        i := i + 1;
      }
      assert tags[..i] == tags;
      SummaryCharacterised(rows, summaries);
      SummaryKeys(rows);
      GroupTotalsAddUp(rows);
      TotalUnfiltered(rows, None);
    }

    method GetStrikeDetails(tag: Option<string>) returns (details: seq<DetailRow>)
      ensures details == Details(rows, tag)
      ensures multiset(details) == multiset(Project(Filter(rows, tag)))
      ensures DetailsOrdered(details)
    {
      details := Details(rows, tag);
      DetailsSpec(rows, tag);
    }
  }
}
