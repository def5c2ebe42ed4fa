/** Reading a row of the join table: scanValues and assignValues of AccountGroup. */
module AccountGroupScan {
  import opened Wrappers
  import opened AccountColumns
  import opened Projection
  import opened Entities

  function JoinDestination(c: JoinColumn): Cell
  {
    match c
    case JoinAccountID | JoinGroupID | JoinPriority => Int64(None)
    case JoinCreatedAt => Moment(None)
    case JoinOther(_) => Unknown("")
  }

  // One case of the switch: NULL leaves the field alone; None is a type mismatch.
  function AssignJoinColumn(r: AccountGroupRow, c: JoinColumn, cell: Cell): Option<AccountGroupRow>
  {
    if c.JoinOther? then Some(r)
    else if !SameKind(JoinDestination(c), cell) then None
    else if cell == JoinDestination(c) then Some(r)
    else
      match c
      case JoinAccountID => Some(r.(accountID := cell.i.value))
      case JoinGroupID => Some(r.(groupID := cell.i.value))
      case JoinPriority => Some(r.(priority := cell.i.value))
      case JoinCreatedAt => Some(r.(createdAt := cell.t.value))
  }

  const ZERO_JOIN := AccountGroupRow(0, 0, 0, 0)

  // The columns of a stored row; all of them are NOT NULL in the schema.
  function JoinCell(stored: AccountGroupRow, c: JoinColumn): Cell
  {
    match c
    case JoinAccountID => Int64(Some(stored.accountID))
    case JoinGroupID => Int64(Some(stored.groupID))
    case JoinPriority => Int64(Some(stored.priority))
    case JoinCreatedAt => Moment(Some(stored.createdAt))
    case JoinOther(_) => Unknown("")
  }

  // The part of a stored row a column list fetches; the other fields stay zero.
  function ProjectJoin(stored: AccountGroupRow, columns: seq<JoinColumn>): AccountGroupRow
  {
    AccountGroupRow(
      if JoinAccountID in columns then stored.accountID else 0,
      if JoinGroupID in columns then stored.groupID else 0,
      if JoinPriority in columns then stored.priority else 0,
      if JoinCreatedAt in columns then stored.createdAt else 0)
  }

  datatype JoinAssignError = JoinCountMismatch(values: nat, columns: nat) | JoinTypeMismatch(c: JoinColumn)

  // The row after the first n columns, and the error that stopped the loop, if any.
  function AssignJoinFirst(r: AccountGroupRow, columns: seq<JoinColumn>, values: seq<Cell>, n: nat):
    (AccountGroupRow, Option<JoinAssignError>)
    requires n <= |columns| <= |values|
  {
    if n == 0 then (r, None)
    else
      var (before, err) := AssignJoinFirst(r, columns, values, n - 1);
      if err.Some? then (before, err)
      else
        match AssignJoinColumn(before, columns[n - 1], values[n - 1])
        case Some(after) => (after, None)
        case None => (before, Some(JoinTypeMismatch(columns[n - 1])))
  }

  lemma {:induction false} JoinAssignStops(
    r: AccountGroupRow, columns: seq<JoinColumn>, values: seq<Cell>, n: nat, m: nat)
    requires n <= m <= |columns| <= |values| && AssignJoinFirst(r, columns, values, n).1.Some?
    ensures AssignJoinFirst(r, columns, values, m) == AssignJoinFirst(r, columns, values, n)
  {
    if n == m {
    } else {
      JoinAssignStops(r, columns, values, n, m - 1);
    }
  }

  /** assignValues: columns in order up to the first value of a wrong type; fewer values than
      columns is an error that changes nothing. */
  method AssignJoinValues(r: AccountGroupRow, columns: seq<JoinColumn>, values: seq<Cell>)
    returns (row: AccountGroupRow, err: Option<JoinAssignError>)
    ensures |values| < |columns| ==> row == r && err == Some(JoinCountMismatch(|values|, |columns|))
    ensures |columns| <= |values| ==> (row, err) == AssignJoinFirst(r, columns, values, |columns|)
  {
    row, err := r, None;
    if |values| < |columns| {
      return row, Some(JoinCountMismatch(|values|, |columns|));
    }
    for i := 0 to |columns|
      invariant (row, err) == AssignJoinFirst(r, columns, values, i) && err == None
    {
      match AssignJoinColumn(row, columns[i], values[i])
      case None =>
        JoinAssignStops(r, columns, values, i + 1, |columns|);
        return row, Some(JoinTypeMismatch(columns[i]));
      case Some(next) =>
        row := next;
    }
  }

  /** Values of the types scanValues allocates never raise an error, whatever the column list,
      repeats, unknown names and NULLs included. */
  lemma {:induction false} ScannedJoinCellsFit(r: AccountGroupRow, columns: seq<JoinColumn>, values: seq<Cell>, n: nat)
    requires n <= |columns| <= |values|
    requires forall i | 0 <= i < |columns| :: SameKind(JoinDestination(columns[i]), values[i])
    ensures AssignJoinFirst(r, columns, values, n).1.None?
  {
    if n == 0 {
    } else {
      ScannedJoinCellsFit(r, columns, values, n - 1);
    }
  }

  /** Reading any columns of a stored row into a fresh node fills exactly those fields. */
  lemma {:induction false} ReadingAJoinRow(stored: AccountGroupRow, columns: seq<JoinColumn>, values: seq<Cell>, n: nat)
    requires n <= |columns| <= |values|
    requires forall i | 0 <= i < |columns| :: values[i] == JoinCell(stored, columns[i])
    ensures AssignJoinFirst(ZERO_JOIN, columns, values, n) == (ProjectJoin(stored, columns[..n]), None)
    ensures var row := AssignJoinFirst(ZERO_JOIN, columns, values, n).0;
      && row.accountID == (if JoinAccountID in columns[..n] then stored.accountID else 0)
      && row.groupID == (if JoinGroupID in columns[..n] then stored.groupID else 0)
      && row.priority == (if JoinPriority in columns[..n] then stored.priority else 0)
      && row.createdAt == (if JoinCreatedAt in columns[..n] then stored.createdAt else 0)
  {
    if n == 0 {
    } else {
      ReadingAJoinRow(stored, columns, values, n - 1);
      assert columns[..n] == columns[..n - 1] + [columns[n - 1]];
    }
  }

  /** Fetching all columns gives the stored row back. */
  lemma AllJoinColumns(stored: AccountGroupRow, columns: seq<JoinColumn>)
    requires forall c | c in JOIN_COLUMNS :: c in columns
    ensures ProjectJoin(stored, columns) == stored
  {
    assert JOIN_COLUMNS[0] in columns && JOIN_COLUMNS[1] in columns && JOIN_COLUMNS[2] in columns;
    assert JOIN_COLUMNS[3] in columns;
  }
}
