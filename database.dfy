/**
 * The prediction history kept by the web application (`Database`): an
 * SQLite table `predictions(id INTEGER PRIMARY KEY AUTOINCREMENT,
 * predicted_letter, confidence, timestamp DEFAULT CURRENT_TIMESTAMP)`.
 *
 * The table is a sequence of rows in insertion order together with the
 * table's AUTOINCREMENT counter (the largest id ever issued, never reset by
 * DELETE). The clock behind CURRENT_TIMESTAMP is a value supplied by the
 * caller, and a storage fault (the connection or the statement failing) is
 * a flag: writes re-raise it, reads swallow it.
 */
module History {
  import opened Common

  /** SQLite's largest rowid; once issued, an AUTOINCREMENT insert fails with SQLITE_FULL. */
  const MaxRowId: nat := 0x7FFF_FFFF_FFFF_FFFF

  /**
   * The values SQLite's 64-bit INTEGER can hold. Binding a Python int outside
   * this range raises OverflowError before the statement runs.
   */
  predicate IsSqliteInteger(x: int) {
    -0x8000_0000_0000_0000 <= x <= 0x7FFF_FFFF_FFFF_FFFF
  }

  /** One row: `id`, `predicted_letter`, `confidence`, `timestamp` (seconds on the caller's clock). */
  datatype Row = Row(id: nat, letter: string, confidence: real, timestamp: int)

  /** The dictionary `get_statistics` returns. */
  datatype Statistics = Statistics(
    totalPredictions: nat,
    mostCommonLetter: Option<string>,
    mostCommonCount: nat,
    averageConfidence: real)

  // ---------------------------------------------------------------------------
  // What the queries mean.

  /** Timestamps do not increase along `s`. */
  predicate NewestFirst(s: seq<Row>) {
    forall i, j :: 0 <= i < j < |s| ==> s[i].timestamp >= s[j].timestamp
  }

  /** How many rows `LIMIT limit` keeps: all of them when the limit is negative. */
  function LimitCount(limit: int, n: nat): (k: nat)
    ensures k <= n
    ensures limit < 0 ==> k == n
    ensures 0 <= limit ==> k == if limit < n then limit else n
  {
    if limit < 0 || limit >= n then n else limit
  }

  /**
   * `out` is an answer to `SELECT ... ORDER BY timestamp DESC LIMIT limit`:
   * as many rows as the limit lets through, each an unchanged row of the
   * table, none twice, newest first, and no row left out newer than one
   * returned. Rows with equal timestamps may come in any order.
   */
  predicate IsRecentListing(rows: seq<Row>, limit: int, out: seq<Row>) {
    && |out| == LimitCount(limit, |rows|)
    && multiset(out) <= multiset(rows)
    && NewestFirst(out)
    && forall r, j :: r in rows && r !in out && 0 <= j < |out| ==> r.timestamp <= out[j].timestamp
  }

  /** How many rows carry `letter` (`COUNT(*) ... GROUP BY predicted_letter`). */
  function Count(rows: seq<Row>, letter: string): nat {
    if rows == [] then 0
    else (if rows[0].letter == letter then 1 else 0) + Count(rows[1..], letter)
  }

  /** Sum of the confidences. */
  function SumConfidence(rows: seq<Row>): real {
    if rows == [] then 0.0 else rows[0].confidence + SumConfidence(rows[1..])
  }

  predicate HasLetter(rows: seq<Row>, letter: string) {
    exists i :: 0 <= i < |rows| && rows[i].letter == letter
  }

  /**
   * `s` is what `get_statistics` reports for `rows`: the row count; a letter
   * that no letter outnumbers and its count (ties between letters go either
   * way), or None and 0 for an empty table; and the mean confidence, 0.0 for
   * an empty table.
   */
  ghost predicate IsStatistics(rows: seq<Row>, s: Statistics) {
    && s.totalPredictions == |rows|
    && (s.mostCommonLetter.None? <==> rows == [])
    && (rows == [] ==> s.mostCommonCount == 0 && s.averageConfidence == 0.0)
    && (s.mostCommonLetter.Some? ==>
          && HasLetter(rows, s.mostCommonLetter.value)
          && s.mostCommonCount == Count(rows, s.mostCommonLetter.value)
          && forall letter :: Count(rows, letter) <= s.mostCommonCount)
    && (rows != [] ==> s.averageConfidence == SumConfidence(rows) / (|rows| as real))
  }

  // ---------------------------------------------------------------------------
  // Facts about the meaning.

  lemma {:induction false} CountPositive(rows: seq<Row>, letter: string)
    ensures Count(rows, letter) > 0 <==> HasLetter(rows, letter)
  {
    if rows != [] {
      CountPositive(rows[1..], letter);
      if HasLetter(rows[1..], letter) {
        var i :| 0 <= i < |rows[1..]| && rows[1..][i].letter == letter;
        assert rows[i + 1].letter == letter;
      }
      if HasLetter(rows, letter) && rows[0].letter != letter {
        var i :| 0 <= i < |rows| && rows[i].letter == letter;
        assert rows[1..][i - 1].letter == letter;
      }
    }
  }

  /** Only an empty answer lists the rows of an empty table; the statistics of an empty table are all zero. */
  lemma EmptyTableQueries(limit: int, out: seq<Row>, s: Statistics)
    requires IsRecentListing([], limit, out) && IsStatistics([], s)
    ensures out == [] && s == Statistics(0, None, 0, 0.0)
  {
  }

  // ---------------------------------------------------------------------------
  // One answer of each query, computed (the engine's own choice among ties is not modelled).

  lemma PrependNewest(h: Row, rest: seq<Row>)
    requires NewestFirst(rest) && forall y :: y in rest ==> y.timestamp <= h.timestamp
    ensures NewestFirst([h] + rest)
  {
    var s := [h] + rest;
    forall i, j | 0 <= i < j < |s| ensures s[i].timestamp >= s[j].timestamp {
      assert s[j] == rest[j - 1];
      if i > 0 {
        assert s[i] == rest[i - 1];
      }
    }
  }

  /** Inserting a row older than the head of a newest-first run leaves the head newest. */
  lemma InsertedBelowHead(r: Row, sorted: seq<Row>, rest: seq<Row>)
    requires NewestFirst(sorted) && sorted != [] && r.timestamp < sorted[0].timestamp
    requires multiset(rest) == multiset(sorted[1..]) + multiset{r}
    ensures forall y :: y in rest ==> y.timestamp <= sorted[0].timestamp
  {
    forall y | y in rest ensures y.timestamp <= sorted[0].timestamp {
      assert y in multiset(rest);
      if y != r {
        assert y in multiset(sorted[1..]);
        var i :| 0 <= i < |sorted[1..]| && sorted[1..][i] == y;
        assert sorted[i + 1] == y;
      }
    }
  }

  function InsertNewest(r: Row, sorted: seq<Row>): (s: seq<Row>)
    requires NewestFirst(sorted)
    ensures |s| == |sorted| + 1
    ensures multiset(s) == multiset(sorted) + multiset{r}
    ensures NewestFirst(s)
  {
    if sorted == [] || r.timestamp >= sorted[0].timestamp then
      PrependNewest(r, sorted);
      [r] + sorted
    else
      var rest := InsertNewest(r, sorted[1..]);
      assert sorted == [sorted[0]] + sorted[1..];
      InsertedBelowHead(r, sorted, rest);
      PrependNewest(sorted[0], rest);
      [sorted[0]] + rest
  }

  function SortNewestFirst(rows: seq<Row>): (s: seq<Row>)
    ensures |s| == |rows| && multiset(s) == multiset(rows) && NewestFirst(s)
  {
    if rows == [] then []
    else
      assert rows == [rows[0]] + rows[1..];
      InsertNewest(rows[0], SortNewestFirst(rows[1..]))
  }

  lemma LateRowIsKept(s: seq<Row>, k: nat, p: nat)
    requires k <= |s| && p < |s|
    ensures p < k ==> s[p] in s[..k]
  {
    if p < k {
      assert s[..k][p] == s[p];
    }
  }

  /** A row left out of the first k of a newest-first run is no newer than any row kept. */
  lemma LeftOutNoNewer(s: seq<Row>, k: nat, r: Row, j: nat)
    requires NewestFirst(s) && k <= |s| && r in s && r !in s[..k] && j < k
    ensures r.timestamp <= s[..k][j].timestamp
  {
    var p :| 0 <= p < |s| && s[p] == r;
    LateRowIsKept(s, k, p);
    assert s[..k][j] == s[j];
  }

  lemma PrefixIsSubMultiset(s: seq<Row>, k: nat)
    requires k <= |s|
    ensures multiset(s[..k]) <= multiset(s)
  {
    assert s == s[..k] + s[k..];
  }

  /** The first k rows of any newest-first arrangement of the table answer the query. */
  lemma {:induction false} SortedPrefixIsListing(rows: seq<Row>, s: seq<Row>, limit: int)
    requires multiset(s) == multiset(rows) && NewestFirst(s) && |s| == |rows|
    ensures IsRecentListing(rows, limit, s[..LimitCount(limit, |rows|)])
  {
    var k := LimitCount(limit, |rows|);
    var out := s[..k];
    PrefixIsSubMultiset(s, k);
    forall r, j | r in rows && r !in out && 0 <= j < k
      ensures r.timestamp <= out[j].timestamp
    {
      assert r in multiset(s);
      LeftOutNoNewer(s, k, r, j);
    }
  }

  /**
   * One answer to `SELECT ... ORDER BY timestamp DESC LIMIT limit` (the
   * engine's own choice among equal timestamps is not modelled); it meets the
   * query's specification.
   */
  function RecentListing(rows: seq<Row>, limit: int): (out: seq<Row>)
    ensures IsRecentListing(rows, limit, out)
  {
    var s := SortNewestFirst(rows);
    SortedPrefixIsListing(rows, s, limit);
    s[..LimitCount(limit, |rows|)]
  }

  /** A letter no other letter outnumbers, among the letters of `candidates`. */
  function MostCommonAmong(rows: seq<Row>, candidates: seq<Row>): (letter: string)
    requires candidates != []
    ensures exists i :: 0 <= i < |candidates| && candidates[i].letter == letter
    ensures forall i :: 0 <= i < |candidates| ==> Count(rows, candidates[i].letter) <= Count(rows, letter)
  {
    if |candidates| == 1 then candidates[0].letter
    else
      var rest := MostCommonAmong(rows, candidates[1..]);
      assert forall i :: 1 <= i < |candidates| ==> candidates[i] == candidates[1..][i - 1];
      if Count(rows, candidates[0].letter) >= Count(rows, rest) then candidates[0].letter else rest
  }

  /** A letter no candidate letter outnumbers is one no letter at all outnumbers, when the candidates are all the rows. */
  lemma {:induction false} MostCommonOverall(rows: seq<Row>, letter: string)
    requires forall i :: 0 <= i < |rows| ==> Count(rows, rows[i].letter) <= Count(rows, letter)
    ensures forall other :: Count(rows, other) <= Count(rows, letter)
  {
    forall other ensures Count(rows, other) <= Count(rows, letter) {
      CountPositive(rows, other);
    }
  }

  /** The answer `get_statistics` computes; it meets the statistics' specification. */
  function ComputeStatistics(rows: seq<Row>): (s: Statistics)
    ensures IsStatistics(rows, s)
  {
    if rows == [] then Statistics(0, None, 0, 0.0)
    else
      var letter := MostCommonAmong(rows, rows);
      MostCommonOverall(rows, letter);
      Statistics(|rows|, Some(letter), Count(rows, letter), SumConfidence(rows) / (|rows| as real))
  }

  // ---------------------------------------------------------------------------
  // The table.

  class Database {
    /** The rows of `predictions`, oldest insert first. */
    var rows: seq<Row>
    /** The table's entry in `sqlite_sequence`: the largest id ever issued (0 before the first insert). */
    var lastId: nat
    /** Every id ever issued, including those of rows deleted since. */
    ghost var issued: set<nat>

    ghost predicate Valid()
      reads this
    {
      && (forall id :: id in issued ==> 0 < id <= lastId)
      && (forall i :: 0 <= i < |rows| ==> rows[i].id in issued)
      && (forall i, j :: 0 <= i < j < |rows| ==> rows[i].id < rows[j].id)
    }

    /** `__init__`: `CREATE TABLE IF NOT EXISTS` on a new database file gives an empty table. */
    constructor ()
      ensures Valid() && rows == [] && lastId == 0 && issued == {}
    {
      rows, lastId, issued := [], 0, {};
    }

    /**
     * `__init__` on an existing database file: `CREATE TABLE IF NOT EXISTS`
     * keeps its rows and its AUTOINCREMENT counter. The file's ids are
     * positive, increasing in insertion order and at most the counter.
     */
    constructor Reopen(rows0: seq<Row>, lastId0: nat)
      requires forall i :: 0 <= i < |rows0| ==> 0 < rows0[i].id <= lastId0
      requires forall i, j :: 0 <= i < j < |rows0| ==> rows0[i].id < rows0[j].id
      ensures Valid() && rows == rows0 && lastId == lastId0
    {
      rows, lastId := rows0, lastId0;
      // The ids of rows deleted earlier are not recorded in the file; the counter bounds them.
      issued := set i | 0 <= i < |rows0| :: rows0[i].id;
    }

    /**
     * `add_prediction`: INSERT one row with the next AUTOINCREMENT id and the
     * clock's current time. A storage fault, or an exhausted id space, raises
     * and leaves the table as it was.
     */
    method AddPrediction(letter: string, confidence: real, now: int, storageFault: bool) returns (raised: bool)
      requires Valid()
      modifies this
      ensures Valid()
      ensures raised <==> storageFault || old(lastId) == MaxRowId
      ensures raised ==> rows == old(rows) && lastId == old(lastId) && issued == old(issued)
      ensures !raised ==>
                && lastId == old(lastId) + 1
                && rows == old(rows) + [Row(lastId, letter, confidence, now)]
                && (forall id :: id in old(issued) ==> id < lastId)
                && issued == old(issued) + {lastId}
    {
      if storageFault || lastId == MaxRowId {
        return true;
      }
      lastId := lastId + 1;
      rows := rows + [Row(lastId, letter, confidence, now)];
      issued := issued + {lastId};
      raised := false;
    }

    /**
     * `get_recent_predictions(limit)`: the newest `limit` rows (all rows for a
     * negative limit), or [] when the storage fails or the limit does not fit
     * SQLite's INTEGER. The table is not changed.
     */
    method GetRecentPredictions(limit: int, storageFault: bool) returns (out: seq<Row>)
      ensures storageFault || !IsSqliteInteger(limit) ==> out == []
      ensures !storageFault && IsSqliteInteger(limit) ==> IsRecentListing(rows, limit, out)
    {
      if storageFault || !IsSqliteInteger(limit) {
        return [];
      }
      out := RecentListing(rows, limit);
    }

    /** `get_statistics()`: the table's statistics, or None when the storage fails. The table is not changed. */
    method GetStatistics(storageFault: bool) returns (s: Option<Statistics>)
      ensures storageFault <==> s.None?
      ensures s.Some? ==> IsStatistics(rows, s.value)
    {
      if storageFault {
        return None;
      }
      s := Some(ComputeStatistics(rows));
    }

    /**
     * `clear_history`: DELETE every row. The AUTOINCREMENT counter is kept, so
     * ids are never reused. A storage fault raises and changes nothing.
     */
    method ClearHistory(storageFault: bool) returns (raised: bool)
      requires Valid()
      modifies this
      ensures Valid()
      ensures raised <==> storageFault
      ensures raised ==> rows == old(rows)
      ensures !raised ==> rows == []
      ensures lastId == old(lastId) && issued == old(issued)
    {
      if storageFault {
        return true;
      }
      rows := [];
      raised := false;
    }
  }

  /** After a successful clear, the history lists nothing and counts nothing. */
  method ClearThenQuery(db: Database, limit: int) returns (out: seq<Row>, s: Option<Statistics>)
    requires db.Valid()
    modifies db
    ensures db.Valid()
    ensures out == [] && s == Some(Statistics(0, None, 0, 0.0))
  {
    var raised := db.ClearHistory(false);
    out := db.GetRecentPredictions(limit, false);
    s := db.GetStatistics(false);
  }

  /** Three predictions A 0.9, A 0.8, B 0.7: three in all, A twice, mean confidence 0.8. */
  method StatisticsExample() returns (s: Option<Statistics>)
    ensures s == Some(Statistics(3, Some("A"), 2, 0.8))
  {
    var db := new Database();
    var r1 := db.AddPrediction("A", 0.9, 1, false);
    var r2 := db.AddPrediction("A", 0.8, 2, false);
    var r3 := db.AddPrediction("B", 0.7, 3, false);
    s := db.GetStatistics(false);
    var rows := db.rows;
    assert rows == [Row(1, "A", 0.9, 1), Row(2, "A", 0.8, 2), Row(3, "B", 0.7, 3)];
    var tail1, tail2 := rows[1..], rows[2..];
    assert tail1 == [Row(2, "A", 0.8, 2), Row(3, "B", 0.7, 3)] && tail1[1..] == tail2;
    assert tail2 == [Row(3, "B", 0.7, 3)] && tail2[1..] == [];
    assert Count(tail2, "A") == 0 && Count(tail2, "B") == 1 && SumConfidence(tail2) == 0.7;
    assert Count(tail1, "A") == 1 && Count(tail1, "B") == 1 && SumConfidence(tail1) == 1.5;
    assert Count(rows, "A") == 2 && Count(rows, "B") == 1;
    var letter := s.value.mostCommonLetter.value;
    CountPositive(rows, letter);
    assert letter == "A" || letter == "B";
    assert SumConfidence(rows) == 2.4;
  }
}
