/** Reading a row of the usage_logs table: scanValues and assignValues of UsageLog. */
module UsageLogScan {
  import opened Wrappers
  import opened AccountColumns
  import opened Projection
  import opened Entities

  const ZERO_LOG := UsageLogRow(0, 0, map[])

  // The columns besides the keys are read as texts.
  function LogDestination(c: LogColumn): Cell
  {
    match c
    case LogID | LogAccountID => Int64(None)
    case LogOther(_) => Text(None)
  }

  // One case of the switch: NULL leaves the field alone, except that it clears the ID. None
  // is a type mismatch.
  function AssignLogColumn(r: UsageLogRow, c: LogColumn, cell: Cell): Option<UsageLogRow>
  {
    if !SameKind(LogDestination(c), cell) then None
    else
      match c
      case LogID => Some(r.(id := if cell.i.Some? then cell.i.value else 0))
      case LogAccountID => Some(if cell.i.Some? then r.(accountID := cell.i.value) else r)
      case LogOther(name) => Some(if cell.s.Some? then r.(columns := r.columns[name := cell.s.value]) else r)
  }

  // What a stored row holds in a column; the other columns may be NULL.
  function LogCell(stored: UsageLogRow, c: LogColumn): Cell
  {
    match c
    case LogID => Int64(Some(stored.id))
    case LogAccountID => Int64(Some(stored.accountID))
    case LogOther(name) => Text(if name in stored.columns then Some(stored.columns[name]) else None)
  }

  datatype LogAssignError = LogCountMismatch(values: nat, columns: nat) | LogTypeMismatch(c: LogColumn)

  // The row after the first n columns, and the error that stopped the loop, if any.
  function AssignLogFirst(r: UsageLogRow, columns: seq<LogColumn>, values: seq<Cell>, n: nat):
    (UsageLogRow, Option<LogAssignError>)
    requires n <= |columns| <= |values|
  {
    if n == 0 then (r, None)
    else
      var (before, err) := AssignLogFirst(r, columns, values, n - 1);
      if err.Some? then (before, err)
      else
        match AssignLogColumn(before, columns[n - 1], values[n - 1])
        case Some(after) => (after, None)
        case None => (before, Some(LogTypeMismatch(columns[n - 1])))
  }

  lemma {:induction false} LogAssignStops(
    r: UsageLogRow, columns: seq<LogColumn>, values: seq<Cell>, n: nat, m: nat)
    requires n <= m <= |columns| <= |values| && AssignLogFirst(r, columns, values, n).1.Some?
    ensures AssignLogFirst(r, columns, values, m) == AssignLogFirst(r, columns, values, n)
  {
    if n == m {
    } else {
      LogAssignStops(r, columns, values, n, m - 1);
    }
  }

  /** assignValues: columns in order up to the first value of a wrong type; fewer values than
      columns is an error that changes nothing. */
  method AssignLogValues(r: UsageLogRow, columns: seq<LogColumn>, values: seq<Cell>)
    returns (row: UsageLogRow, err: Option<LogAssignError>)
    ensures |values| < |columns| ==> row == r && err == Some(LogCountMismatch(|values|, |columns|))
    ensures |columns| <= |values| ==> (row, err) == AssignLogFirst(r, columns, values, |columns|)
  {
    row, err := r, None;
    if |values| < |columns| {
      return row, Some(LogCountMismatch(|values|, |columns|));
    }
    for i := 0 to |columns|
      invariant (row, err) == AssignLogFirst(r, columns, values, i) && err == None
    {
      match AssignLogColumn(row, columns[i], values[i])
      case None =>
        LogAssignStops(r, columns, values, i + 1, |columns|);
        return row, Some(LogTypeMismatch(columns[i]));
      case Some(next) =>
        row := next;
    }
  }

  /** Values of the types scanValues allocates never raise an error, and the ID is that of the
      last ID column, zero for NULL. */
  lemma {:induction false} ScannedLogCellsFit(r: UsageLogRow, columns: seq<LogColumn>, values: seq<Cell>, n: nat)
    requires n <= |columns| <= |values|
    requires forall i | 0 <= i < |columns| :: SameKind(LogDestination(columns[i]), values[i])
    ensures AssignLogFirst(r, columns, values, n).1.None?
    ensures forall k | 0 <= k < n && columns[k] == LogID && (forall j | k < j < n :: columns[j] != LogID) ::
              || (values[k] == Int64(None) && AssignLogFirst(r, columns, values, n).0.id == 0)
              || values[k] == Int64(Some(AssignLogFirst(r, columns, values, n).0.id))
  {
    if n == 0 {
    } else {
      ScannedLogCellsFit(r, columns, values, n - 1);
    }
  }

  // The part of a stored log that these columns fetch; the rest is at its zero.
  ghost predicate LogFetched(stored: UsageLogRow, columns: seq<LogColumn>, row: UsageLogRow)
  {
    && row.id == (if LogID in columns then stored.id else 0)
    && row.accountID == (if LogAccountID in columns then stored.accountID else 0)
    && (forall name :: name in row.columns <==> name in stored.columns && LogOther(name) in columns)
    && forall name | name in row.columns :: row.columns[name] == stored.columns[name]
  }

  lemma OneMoreColumn(stored: UsageLogRow, columns: seq<LogColumn>, row: UsageLogRow, c: LogColumn)
    requires LogFetched(stored, columns, row)
    ensures var next := AssignLogColumn(row, c, LogCell(stored, c));
      next.Some? && LogFetched(stored, columns + [c], next.value)
  {
    forall d ensures d in columns + [c] <==> d in columns || d == c {
    }
  }

  /** Reading any columns of a stored log into a fresh node fills exactly those fields. */
  lemma {:induction false} ReadingALog(stored: UsageLogRow, columns: seq<LogColumn>, values: seq<Cell>, n: nat)
    requires n <= |columns| <= |values|
    requires forall i | 0 <= i < |columns| :: values[i] == LogCell(stored, columns[i])
    ensures AssignLogFirst(ZERO_LOG, columns, values, n).1.None?
    ensures LogFetched(stored, columns[..n], AssignLogFirst(ZERO_LOG, columns, values, n).0)
  {
    if n == 0 {
    } else {
      var (before, _) := AssignLogFirst(ZERO_LOG, columns, values, n - 1);
      ReadingALog(stored, columns, values, n - 1);
      OneMoreColumn(stored, columns[..n - 1], before, columns[n - 1]);
      assert columns[..n] == columns[..n - 1] + [columns[n - 1]];
    }
  }

  /** Fetching all columns gives the stored log back. */
  lemma AllLogColumns(stored: UsageLogRow, columns: seq<LogColumn>, row: UsageLogRow)
    requires LogFetched(stored, columns, row) && LogID in columns && LogAccountID in columns
    requires forall name | name in stored.columns :: LogOther(name) in columns
    ensures row == stored
  {
    assert row.columns == stored.columns;
  }
}
