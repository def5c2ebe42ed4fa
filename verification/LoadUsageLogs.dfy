/** The one-to-many loader: each usage log goes to the account its foreign key names. */
module LoadUsageLogs {
  import opened Wrappers
  import opened Relations
  import opened Entities
  import opened Loading
  import opened Projection
  import opened UsageLogScan

  datatype UsageLogQuery = UsageLogQuery(fields: seq<LogColumn>, all: seq<LogColumn>, run: Query<UsageLogRow>)

  function LogKey(n: UsageLog): int
  {
    n.row.accountID
  }

  // The children of one account, in the order they came back.
  function LogsOf(neighbors: seq<UsageLog>, accountID: int): seq<UsageLog>
  {
    ChildrenOf(LogKey, accountID, neighbors)
  }

  function LogParent(r: UsageLogRow): int
  {
    r.accountID
  }

  // Each log holds the keys of its stored row, its fetched columns, and nothing else.
  ghost predicate LogsAre(neighbors: seq<UsageLog>, rows: seq<UsageLogRow>, columns: seq<LogColumn>)
  {
    |neighbors| == |rows| && forall k | 0 <= k < |rows| :: LogHolds(rows[k], columns, neighbors[k].row)
  }

  ghost predicate LogHolds(stored: UsageLogRow, columns: seq<LogColumn>, row: UsageLogRow)
  {
    && row.id == stored.id && row.accountID == stored.accountID
    && (forall name :: name in row.columns <==> name in stored.columns && LogOther(name) in columns)
    && forall name | name in row.columns :: row.columns[name] == stored.columns[name]
  }

  predicate KeysListed(columns: seq<LogColumn>)
  {
    LogID in columns && LogAccountID in columns
  }

  // Every node the index points at holds the children of its ID, in order.
  ghost predicate LogsAttached(nodes: seq<Account>, ids: seq<int>, neighbors: seq<UsageLog>)
    requires |ids| == |nodes|
    reads nodes`edges
  {
    forall i | 0 <= i < |nodes| ::
      nodes[i].edges.usageLogs == if Owner(ids, i) then LogsOf(neighbors, ids[i]) else []
  }

  /** loadUsageLogs: whatever fields were selected, each log lands on the account its
      stored key names. It fails exactly when the query fails or some key names no parent. */
  method LoadUsageLogs(nodes: seq<Account>, query: UsageLogQuery)
    returns (err: Option<LoadError>, ghost neighbors: seq<UsageLog>, ghost columns: seq<LogColumn>)
    requires Distinct(nodes) && KeysListed(query.all)
    modifies nodes`edges
    ensures forall a | a in nodes :: a.edges == old(a.edges).(usageLogs := a.edges.usageLogs)
    ensures KeysListed(columns) && (forall f | f in query.fields :: f in columns)
    ensures if query.fields == [] then columns == query.all
            else forall c | c in columns :: c in query.fields || c in [LogID, LogAccountID]
    ensures match query.run(IDsOf(nodes))
            case Err(e) => err == Some(QueryFailed(e))
            case Ok(rows) => LogsOutcome(err, nodes, IDsOf(nodes), rows, columns, neighbors)
  {
    var fks, nodeids := IndexAndResetLogs(nodes);
    var fields := query.fields;
    if |fields| > 0 {
      fields := AddOnce(fields, LogAccountID);
    }
    var fetched := LogColumnsToFetch(fields, query.all);
    columns := fetched;
    match query.run(fks)
    case Err(e) =>
      err, neighbors := Some(QueryFailed(e)), [];
    case Ok(rows) =>
      err, neighbors := AttachLogs(nodes, fks, nodeids, rows, fetched);
  }

  ghost predicate LogsOutcome(
    err: Option<LoadError>, nodes: seq<Account>, ids: seq<int>, rows: seq<UsageLogRow>, columns: seq<LogColumn>,
    neighbors: seq<UsageLog>)
    requires |ids| == |nodes|
    reads nodes`edges
  {
    match Foreign(KeysOf(LogParent, rows), ids)
    case None => err == None && LogsAre(neighbors, rows, columns) && LogsAttached(nodes, ids, neighbors)
    case Some(fk) => err == Some(UnexpectedNode(fk))
  }

  method AttachLogs(
    nodes: seq<Account>, ghost ids: seq<int>, nodeids: map<int, Account>, rows: seq<UsageLogRow>,
    columns: seq<LogColumn>)
    returns (err: Option<LoadError>, ghost neighbors: seq<UsageLog>)
    requires Distinct(nodes) && |ids| == |nodes| && Indexes(nodeids, nodes, ids) && KeysListed(columns)
    requires forall a | a in nodes :: a.edges.usageLogs == []
    modifies nodes`edges
    ensures forall a | a in nodes :: a.edges == old(a.edges).(usageLogs := a.edges.usageLogs)
    ensures LogsOutcome(err, nodes, ids, rows, columns, neighbors)
  {
    var built := BuildLogs(rows, columns);
    err := DistributeLogs(built, nodeids, nodes, ids, KeysOf(LogParent, rows));
    neighbors := built;
  }

  method IndexAndResetLogs(nodes: seq<Account>) returns (fks: seq<int>, nodeids: map<int, Account>)
    modifies nodes`edges
    ensures fks == IDsOf(nodes)
    ensures Indexes(nodeids, nodes, fks)
    ensures forall a | a in nodes :: a.edges == old(a.edges).(usageLogs := [])
  {
    fks, nodeids := [], map[];
    ghost var ids := IDsOf(nodes);
    for i := 0 to |nodes|
      invariant fks == ids[..i]
      invariant Indexes(nodeids, nodes, ids[..i])
      invariant forall a | a in nodes :: a.edges == old(a.edges).(usageLogs := a.edges.usageLogs)
      invariant forall k | 0 <= k < i :: nodes[k].edges.usageLogs == []
    {
      TakeNext(ids, i);
      IndexesStep(nodeids, nodes, ids[..i], ids[i]);
      fks := fks + [nodes[i].Id()];
      nodeids := nodeids[nodes[i].Id() := nodes[i]];
      nodes[i].edges := nodes[i].edges.(usageLogs := []);
    }
    TakeAll(ids);
  }

  method BuildLogs(rows: seq<UsageLogRow>, columns: seq<LogColumn>) returns (built: seq<UsageLog>)
    requires KeysListed(columns)
    ensures LogsAre(built, rows, columns)
  {
    built := [];
    for i := 0 to |rows|
      invariant |built| == i && forall k | 0 <= k < i :: LogHolds(rows[k], columns, built[k].row)
    {
      var values := seq(|columns|, j requires 0 <= j < |columns| => LogCell(rows[i], columns[j]));
      ReadingALog(rows[i], columns, values, |columns|);
      TakeAll(columns);
      var row, _ := AssignLogValues(ZERO_LOG, columns, values);
      var n := new UsageLog(row);
      built := built + [n];
    }
  }

  method AppendLog(
    node: Account, n: UsageLog, ghost nodes: seq<Account>, ghost ids: seq<int>, ghost before: seq<UsageLog>)
    requires Distinct(nodes) && |ids| == |nodes| && n.row.accountID in ids
    requires node == nodes[LastIndex(ids, n.row.accountID)]
    requires LogsAttached(nodes, ids, before)
    modifies nodes`edges
    ensures forall a | a in nodes :: a.edges == old(a.edges).(usageLogs := a.edges.usageLogs)
    ensures LogsAttached(nodes, ids, before + [n])
  {
    ghost var owner := LastIndex(ids, n.row.accountID);
    forall k | 0 <= k < |nodes|
      ensures Owner(ids, k) && ids[k] == n.row.accountID <==> k == owner
      ensures nodes[k] == node <==> k == owner
      ensures LogsOf(before + [n], ids[k]) == LogsOf(before, ids[k]) + if n.row.accountID == ids[k] then [n] else []
    {
      LastIsOwner(ids, n.row.accountID, k);
      ChildrenOfAppend(LogKey, ids[k], before, n);
    }
    node.edges := node.edges.(usageLogs := node.edges.usageLogs + [n]);
  }

  method DistributeLogs(
    neighbors: seq<UsageLog>, nodeids: map<int, Account>, ghost nodes: seq<Account>, ghost ids: seq<int>,
    ghost fks: seq<int>)
    returns (err: Option<LoadError>)
    requires Distinct(nodes) && |ids| == |nodes| && Indexes(nodeids, nodes, ids)
    requires |fks| == |neighbors| && forall k | 0 <= k < |fks| :: neighbors[k].row.accountID == fks[k]
    requires forall a | a in nodes :: a.edges.usageLogs == []
    modifies nodes`edges
    ensures forall a | a in nodes :: a.edges == old(a.edges).(usageLogs := a.edges.usageLogs)
    ensures match Foreign(fks, ids)
            case None => err == None && LogsAttached(nodes, ids, neighbors)
            case Some(fk) => err == Some(UnexpectedNode(fk))
  {
    for i := 0 to |neighbors|
      invariant Foreign(fks[..i], ids).None?
      invariant forall a | a in nodes :: a.edges == old(a.edges).(usageLogs := a.edges.usageLogs)
      invariant LogsAttached(nodes, ids, neighbors[..i])
    {
      var n := neighbors[i];
      var fk := n.row.accountID;
      ForeignStep(fks, ids, i);
      if fk !in nodeids {
        return Some(UnexpectedNode(fk));
      }
      TakeNext(neighbors, i);
      AppendLog(nodeids[fk], n, nodes, ids, neighbors[..i]);
    }
    TakeAll(neighbors);
    TakeAll(fks);
    err := None;
  }

  ghost function LogLists(nodes: seq<Account>): (lists: seq<seq<UsageLog>>)
    reads nodes`edges
    ensures |lists| == |nodes| && forall i | 0 <= i < |nodes| :: lists[i] == nodes[i].edges.usageLogs
  {
    if nodes == [] then [] else LogLists(nodes[..|nodes| - 1]) + [nodes[|nodes| - 1].edges.usageLogs]
  }

  /** Every log ends up on exactly one account, and the accounts hold as many logs between
      them as came back. */
  lemma LogsConserved(nodes: seq<Account>, ids: seq<int>, neighbors: seq<UsageLog>)
    requires |ids| == |nodes| && LogsAttached(nodes, ids, neighbors)
    requires forall n | n in neighbors :: n.row.accountID in ids
    ensures forall n, i | n in neighbors && 0 <= i < |nodes| ::
              n in nodes[i].edges.usageLogs <==> i == LastIndex(ids, n.row.accountID)
    ensures TotalLength(LogLists(nodes)) == |neighbors|
  {
    assert LogLists(nodes) == OwnedLists(ids, LogKey, neighbors);
    ChildrenConserved(ids, LogKey, neighbors);
  }
}
