/**
 * The alert log (`DatabaseManager` in database.py): an append-only table of alert rows with
 * auto-incremented ids, and the three queries the monitor runs against it. The SQL engine is
 * replaced by the in-memory row sequence; what each query computes is stated by the functions
 * below.
 */
module AlertLog {

  import opened Wrappers
  import opened Alerts
  import opened Counting
  import opened Ranking

  const DEFAULT_DB_PATH: string := "codexray.db"
  /** The number of rows `get_recent_alerts` returns when called without a limit. */
  const DEFAULT_RECENT_LIMIT: int := 10

  /** One row of the `alerts` table; `acknowledged` defaults to false and is never set. */
  datatype Row = Row(id: nat, alert: Alert, acknowledged: bool)

  /** Every operation on a closed manager fails: its cursor is gone. */
  datatype DbError = ConnectionClosed

  function Timestamp(r: Row): int
  {
    r.alert.timestamp
  }

  /** The `type` column, in row order. */
  function Kinds(rows: seq<Row>): (kinds: seq<string>)
    ensures |kinds| == |rows|
    ensures forall i :: 0 <= i < |rows| ==> kinds[i] == rows[i].alert.kind
  {
    if rows == [] then [] else Kinds(rows[..|rows| - 1]) + [rows[|rows| - 1].alert.kind]
  }

  /** The six reported columns (type, message, value, threshold, severity, timestamp) of each row, in order. */
  function AlertsOf(rows: seq<Row>): (alerts: seq<Alert>)
    ensures |alerts| == |rows|
    ensures forall i :: 0 <= i < |rows| ==> alerts[i] == rows[i].alert
  {
    if rows == [] then [] else AlertsOf(rows[..|rows| - 1]) + [rows[|rows| - 1].alert]
  }

  /**
   * The rows of `SELECT type, COUNT(*) FROM alerts GROUP BY type`, in whatever order the engine
   * emits them: one pair for each type that occurs and for no other, each type once, each with
   * its number of rows.
   */
  predicate GroupedBy(kinds: seq<string>, groups: seq<(string, nat)>)
  {
    && (forall i, j :: 0 <= i < j < |groups| ==> groups[i].0 != groups[j].0)
    && (forall i :: 0 <= i < |groups| ==> groups[i].0 in kinds && groups[i].1 == multiset(kinds)[groups[i].0])
    && (forall k :: k in kinds ==> exists i :: 0 <= i < |groups| && groups[i].0 == k)
  }

  /** One valid answer of the grouping query; the engine may return the same pairs in another order. */
  function GroupByKind(kinds: seq<string>): (groups: seq<(string, nat)>)
    ensures GroupedBy(kinds, groups)
  {
    var d := Distinct(kinds);
    var groups := seq(|d|, i requires 0 <= i < |d| => (d[i], multiset(kinds)[d[i]]));
    assert forall k :: k in kinds ==> k in d;
    assert forall i :: 0 <= i < |d| ==> groups[i].0 == d[i];
    groups
  }

  /** The per-type breakdown: each type that occurs mapped to its number of rows. */
  function Breakdown(rows: seq<Row>): (breakdown: map<string, nat>)
    ensures forall i :: 0 <= i < |rows| ==> rows[i].alert.kind in breakdown
    ensures forall k :: k in breakdown ==> 0 < breakdown[k] <= |rows|
  {
    Tally(Kinds(rows))
  }

  /**
   * The breakdown has a key for exactly the types that occur, and its counts add up to the
   * total number of rows.
   */
  lemma BreakdownCounts(rows: seq<Row>)
    ensures forall k :: k in Breakdown(rows) <==> exists i :: 0 <= i < |rows| && rows[i].alert.kind == k
    ensures SumValues(Breakdown(rows)) == |rows|
  {
    var ks := Kinds(rows);
    TallySum(ks);
    forall k ensures k in Breakdown(rows) <==> exists i :: 0 <= i < |rows| && rows[i].alert.kind == k {
      if k in ks {
        var i :| 0 <= i < |ks| && ks[i] == k;
        assert rows[i].alert.kind == k;
      }
    }
  }

  /** A dictionary holding the count of every type that occurs, and nothing else, is the tally. */
  lemma GroupsCoverTally(kinds: seq<string>, result: map<string, nat>)
    requires forall k :: k in kinds ==> k in result
    requires forall k :: k in result ==> k in kinds && result[k] == multiset(kinds)[k]
    ensures result == Tally(kinds)
  {
    assert result.Keys == Tally(kinds).Keys;
  }

  /**
   * What `ORDER BY timestamp DESC LIMIT limit` selects: `limit` rows (all rows for a negative
   * limit, as SQLite treats it), newest first, and no row left out is newer than a row kept.
   * Rows with equal timestamps keep their insertion order.
   */
  function SelectRecent(rows: seq<Row>, limit: int): (selected: seq<Row>)
    ensures |selected| == if limit < 0 then |rows| else Min(limit, |rows|)
    ensures SortedDesc(selected, Timestamp)
    ensures multiset(selected) <= multiset(rows)
    ensures forall x, y :: x in multiset(rows) - multiset(selected) && y in multiset(selected) ==>
      Timestamp(x) <= Timestamp(y)
  {
    var sorted := SortDesc(rows, Timestamp);
    var n := if limit < 0 then |sorted| else Min(limit, |sorted|);
    PrefixDominates(sorted, n, Timestamp);
    sorted[..n]
  }

  /**
   * The dictionary built from the grouped rows, one entry per (type, count) pair: the tally,
   * whatever order the pairs come in.
   */
  method DictOfGroups(kinds: seq<string>, groups: seq<(string, nat)>) returns (result: map<string, nat>)
    requires GroupedBy(kinds, groups)
    ensures result == Tally(kinds)
  {
    result := map[];
    for i := 0 to |groups|
      invariant forall j :: 0 <= j < i ==> groups[j].0 in result
      invariant forall k :: k in result ==> k in kinds && result[k] == multiset(kinds)[k]
    {
      var key := groups[i].0;
      var value := groups[i].1;
      result := result[key := value];
    }
    forall k | k in kinds ensures k in result {
      var i :| 0 <= i < |groups| && groups[i].0 == k;
    }
    GroupsCoverTally(kinds, result);
  }

  /** Storing one more row appends its alert to the rows' alerts. */
  lemma AlertsOfSnoc(rows: seq<Row>, row: Row)
    ensures AlertsOf(rows + [row]) == AlertsOf(rows) + [row.alert]
  {
    assert (rows + [row])[..|rows|] == rows;
  }

  /** The fetched rows turned one by one, in order, into the reported alerts. */
  method ReportAlerts(selected: seq<Row>) returns (alerts: seq<Alert>)
    ensures alerts == AlertsOf(selected)
  {
    alerts := [];
    for i := 0 to |selected|
      invariant alerts == AlertsOf(selected[..i])
    {
      AlertsOfSnoc(selected[..i], selected[i]);
      assert selected[..i + 1] == selected[..i] + [selected[i]];
      alerts := alerts + [selected[i].alert];
    }
    assert selected[..|selected|] == selected;
  }

  /** AUTOINCREMENT ids: every id handed out is in [1, nextId), and later rows have larger ids. */
  ghost predicate IdsIncreasing(rows: seq<Row>, nextId: nat)
  {
    && (forall i :: 0 <= i < |rows| ==> 1 <= rows[i].id < nextId)
    && (forall i, j :: 0 <= i < j < |rows| ==> rows[i].id < rows[j].id)
  }

  /** Appending a row with the next id keeps the ids increasing, the new row's id above all others. */
  lemma AppendKeepsIdsIncreasing(rows: seq<Row>, nextId: nat, alert: Alert)
    requires nextId >= 1 && IdsIncreasing(rows, nextId)
    ensures IdsIncreasing(rows + [NewRow(nextId, alert)], nextId + 1)
    ensures forall i :: 0 <= i < |rows| ==> rows[i].id < nextId
  {
    var extended := rows + [NewRow(nextId, alert)];
    assert forall i :: 0 <= i < |rows| ==> extended[i] == rows[i];
  }

  /** A stored row's own fields, taken from the alert, with `acknowledged` false. */
  function NewRow(id: nat, alert: Alert): Row
  {
    Row(id, alert, false)
  }

  /**
   * The rows a run of stores appends: the alerts in order, with consecutive ids from `firstId`,
   * none acknowledged. They report back exactly the stored alerts.
   */
  function NewRows(firstId: nat, alerts: seq<Alert>): (rows: seq<Row>)
    ensures |rows| == |alerts|
    ensures forall i :: 0 <= i < |rows| ==> rows[i].id == firstId + i && !rows[i].acknowledged
    ensures AlertsOf(rows) == alerts
  {
    seq(|alerts|, i requires 0 <= i < |alerts| => NewRow(firstId + i, alerts[i]))
  }

  /** Storing the next alert of a run extends the run's rows by that alert's row. */
  lemma NewRowsSnoc(stored: seq<Row>, firstId: nat, alerts: seq<Alert>, i: nat)
    requires i < |alerts|
    ensures stored + NewRows(firstId, alerts[..i]) + [NewRow(firstId + i, alerts[i])]
            == stored + NewRows(firstId, alerts[..i + 1])
  {
    assert NewRows(firstId, alerts[..i]) + [NewRow(firstId + i, alerts[i])] == NewRows(firstId, alerts[..i + 1]);
  }

  /** The alerts of two row sequences put together are the alerts of each, in order. */
  lemma AlertsOfAppend(rows: seq<Row>, more: seq<Row>)
    ensures AlertsOf(rows + more) == AlertsOf(rows) + AlertsOf(more)
  {
    assert forall i :: 0 <= i < |rows + more| ==> AlertsOf(rows + more)[i] == (AlertsOf(rows) + AlertsOf(more))[i];
  }

  class DatabaseManager {
    const dbPath: string
    var rows: seq<Row>
    /** The next id the AUTOINCREMENT column hands out. */
    var nextId: nat
    var connected: bool

    /** Ids are positive, strictly increasing in insertion order, and below the next id. */
    ghost predicate Valid()
      reads this
    {
      nextId >= 1 && IdsIncreasing(rows, nextId)
    }

    /** A fresh manager over an empty table, connected. */
    constructor (dbPath: string)
      ensures Valid()
      ensures this.dbPath == dbPath && connected && rows == [] && nextId == 1
    {
      this.dbPath := dbPath;
      rows := [];
      nextId := 1;
      connected := true;
    }

    /** Closes the connection; on an already closed manager it does nothing. */
    method CloseConnection()
      requires Valid()
      modifies this
      ensures Valid()
      ensures !connected
      ensures rows == old(rows) && nextId == old(nextId)
    {
      if connected {
        connected := false;
      }
    }

    /**
     * Appends exactly one row carrying the alert's six fields, a fresh id larger than every
     * id before it, and `acknowledged` false. On a closed manager it fails and changes nothing.
     */
    method StoreAlert(alert: Alert) returns (r: Outcome<DbError>)
      requires Valid()
      modifies this
      ensures Valid()
      ensures connected == old(connected)
      ensures r.Pass? <==> old(connected)
      ensures r.Fail? ==> r.error == ConnectionClosed && rows == old(rows) && nextId == old(nextId)
      ensures r.Pass? ==>
        && rows == old(rows) + [NewRow(old(nextId), alert)]
        && nextId == old(nextId) + 1
        && (forall i :: 0 <= i < |old(rows)| ==> rows[i].id < rows[|rows| - 1].id)
        && AlertsOf(rows) == AlertsOf(old(rows)) + [alert]
    {
      if !connected {
        return Fail(ConnectionClosed);
      }
      AlertsOfSnoc(rows, NewRow(nextId, alert));
      AppendKeepsIdsIncreasing(rows, nextId, alert);
      rows := rows + [NewRow(nextId, alert)];
      nextId := nextId + 1;
      r := Pass;
    }

    /** `SELECT COUNT(*)`: the number of rows. */
    method GetTotalAlerts() returns (r: Result<nat, DbError>)
      ensures r == if connected then Success(|rows|) else Failure(ConnectionClosed)
    {
      if !connected {
        return Failure(ConnectionClosed);
      }
      r := Success(|rows|);
    }

    /** The per-type breakdown, built into a dictionary from the grouped rows. */
    method GetAlertBreakdown() returns (r: Result<map<string, nat>, DbError>)
      ensures r == if connected then Success(Breakdown(rows)) else Failure(ConnectionClosed)
    {
      if !connected {
        return Failure(ConnectionClosed);
      }
      var groups := GroupByKind(Kinds(rows));
      var result := DictOfGroups(Kinds(rows), groups);
      r := Success(result);
    }

    /** The `limit` newest alerts, newest first, each with its six reported fields. */
    method GetRecentAlerts(limit: int := DEFAULT_RECENT_LIMIT) returns (r: Result<seq<Alert>, DbError>)
      ensures r == if connected then Success(AlertsOf(SelectRecent(rows, limit))) else Failure(ConnectionClosed)
    {
      if !connected {
        return Failure(ConnectionClosed);
      }
      var selected := SelectRecent(rows, limit);
      var alerts := ReportAlerts(selected);
      r := Success(alerts);
    }
  }
}
