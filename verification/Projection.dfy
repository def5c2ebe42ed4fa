/** Which columns a query fetches. Selecting fields must not drop the keys that eager
    loading reads afterwards. */
module Projection {
  import opened AccountColumns
  import opened Relations

  datatype JoinColumn = JoinAccountID | JoinGroupID | JoinPriority | JoinCreatedAt | JoinOther(joinName: string)

  datatype LogColumn = LogID | LogAccountID | LogOther(logName: string)

  // accountgroup.Columns; the join table has no ID column.
  const JOIN_COLUMNS: seq<JoinColumn> := [JoinAccountID, JoinGroupID, JoinPriority, JoinCreatedAt]

  function AddedOnce<C(==)>(columns: seq<C>, c: C): seq<C>
  {
    if c in columns then columns else columns + [c]
  }

  // AddColumnOnce and AppendFieldOnce.
  method AddOnce<C(==)>(columns: seq<C>, c: C) returns (r: seq<C>)
    ensures r == AddedOnce(columns, c)
  {
    for i := 0 to |columns|
      invariant c !in columns[..i]
    {
      if columns[i] == c {
        return columns;
      }
    }
    return columns + [c];
  }

  // The ID leads the column list and appears nowhere else in it.
  predicate IDOnce(columns: seq<Column>)
  {
    columns != [] && columns[0] == Whole(ID) && forall i | 0 < i < |columns| :: columns[i] != Whole(ID)
  }

  // The columns of an account query: all of them, or the ID, the selected fields, and the
  // proxy key when its edge was requested.
  function FetchList(fields: seq<Column>, withProxy: bool): seq<Column>
  {
    if fields == [] then COLUMNS
    else
      var columns := [Whole(ID)] + Select((f: Column) => f != Whole(ID), fields);
      if withProxy then AddedOnce(columns, Whole(ProxyID)) else columns
  }

  /** AccountQuery.querySpec: the ID comes first and once, every selected field is there,
      the proxy key is there when the proxy edge was requested, and nothing else is. */
  method AccountColumnsToFetch(fields: seq<Column>, withProxy: bool) returns (columns: seq<Column>)
    ensures columns == FetchList(fields, withProxy)
    ensures IDOnce(columns)
    ensures forall f | f in fields :: f in columns
    ensures withProxy ==> Whole(ProxyID) in columns
    ensures if fields == [] then columns == COLUMNS
            else [Whole(ID)] + Select((f: Column) => f != Whole(ID), fields) <= columns
    ensures fields != [] ==>
              forall c | c in columns :: c == Whole(ID) || c in fields || (withProxy && c == Whole(ProxyID))
  {
    if |fields| == 0 {
      DefaultColumns();
      return COLUMNS;
    }
    columns := [Whole(ID)];
    for i := 0 to |fields|
      invariant columns == [Whole(ID)] + Select((f: Column) => f != Whole(ID), fields[..i])
      invariant IDOnce(columns)
      invariant forall k | 0 <= k < i :: fields[k] in columns
      invariant forall c | c in columns :: c == Whole(ID) || c in fields
    {
      TakeNext(fields, i);
      SelectAppend((f: Column) => f != Whole(ID), fields[..i], fields[i]);
      if fields[i] != Whole(ID) {
        columns := columns + [fields[i]];
      }
    }
    TakeAll(fields);
    if withProxy {
      columns := AddOnce(columns, Whole(ProxyID));
    }
  }

  lemma DefaultColumns()
    ensures IDOnce(COLUMNS) && Whole(ProxyID) in COLUMNS
  {
    assert COLUMNS[10] == Whole(ProxyID);
  }

  /** AccountGroupQuery.querySpec: the selected fields, plus the key of each requested edge. */
  method JoinColumnsToFetch(fields: seq<JoinColumn>, withAccount: bool, withGroup: bool)
    returns (columns: seq<JoinColumn>)
    ensures if fields == [] then columns == JOIN_COLUMNS else fields <= columns
    ensures forall f | f in fields :: f in columns
    ensures withAccount ==> JoinAccountID in columns
    ensures withGroup ==> JoinGroupID in columns
    ensures fields != [] ==> forall c | c in columns ::
              c in fields || (withAccount && c == JoinAccountID) || (withGroup && c == JoinGroupID)
  {
    if |fields| == 0 {
      assert JOIN_COLUMNS[0] == JoinAccountID && JOIN_COLUMNS[1] == JoinGroupID;
      return JOIN_COLUMNS;
    }
    columns := fields;
    if withAccount {
      columns := AddOnce(columns, JoinAccountID);
    }
    if withGroup {
      columns := AddOnce(columns, JoinGroupID);
    }
  }

  /** UsageLogQuery.querySpec without edges of its own: the ID first, then the fields. An
      empty selection fetches every column. */
  method LogColumnsToFetch(fields: seq<LogColumn>, all: seq<LogColumn>) returns (columns: seq<LogColumn>)
    ensures fields == [] ==> columns == all
    ensures fields != [] ==> columns != [] && columns[0] == LogID && forall k | 0 < k < |columns| :: columns[k] != LogID
    ensures fields != [] ==> columns[1..] == Select((f: LogColumn) => f != LogID, fields)
    ensures forall f | f in fields :: f in columns
    ensures fields != [] ==> forall c | c in columns :: c == LogID || c in fields
  {
    if |fields| == 0 {
      return all;
    }
    columns := [LogID];
    for i := 0 to |fields|
      invariant columns == [LogID] + Select((f: LogColumn) => f != LogID, fields[..i])
      invariant columns != [] && columns[0] == LogID && forall k | 0 < k < |columns| :: columns[k] != LogID
      invariant forall k | 0 <= k < i :: fields[k] in columns
      invariant forall c | c in columns :: c == LogID || c in fields
    {
      TakeNext(fields, i);
      SelectAppend((f: LogColumn) => f != LogID, fields[..i], fields[i]);
      if fields[i] != LogID {
        columns := columns + [fields[i]];
      }
    }
    TakeAll(fields);
  }
}
