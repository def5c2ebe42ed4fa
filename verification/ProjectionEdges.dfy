/** Selecting fields does not change the edges: two runs of one account query that differ in
    the selected fields attach the same rows and fail alike. */
module ProjectionEdges {
  import opened Wrappers
  import opened Relations
  import opened AccountScan
  import opened Entities
  import opened Loading
  import opened Projection
  import opened AccountGroupScan
  import opened LoadGroups
  import opened ManyToMany
  import opened LoadProxy
  import opened LoadUsageLogs
  import opened LoadAccountEdge
  import opened LoadGroupEdge
  import opened JoinQuery
  import opened LoadAccountGroups
  import opened SqlAll

  ghost predicate Ran(run: Run, records: seq<Record>, requests: Requests)
    reads run.attached.joins.joins`edges, run.attached.joins.accounts`scalars
  {
    && (forall r | r in records :: ValidRecord(r))
    && KeysAreStored(run.ids, run.keys, records, requests.proxy.Some?)
    && |run.edges| == |records| && EdgesLoaded(run.edges, run.ids, run.keys, requests, run.attached)
  }

  ghost predicate SameGroups(a: seq<Group>, b: seq<Group>)
  {
    |a| == |b| && forall k | 0 <= k < |a| :: a[k].row == b[k].row
  }

  ghost predicate SameGroup(a: Group?, b: Group?)
  {
    (a == null <==> b == null) && (a != null && b != null ==> a.row == b.row)
  }

  ghost predicate SameProxy(a: Proxy?, b: Proxy?)
  {
    (a == null <==> b == null) && (a != null && b != null ==> a.row == b.row)
  }

  ghost predicate SameAccount(a: Account?, b: Account?)
    reads a, b
  {
    (a == null <==> b == null) && (a != null && b != null ==> a.scalars.row == b.scalars.row)
  }

  lemma {:induction false} ProxyForRow(a: seq<Proxy>, b: seq<Proxy>, rows: seq<ProxyRow>, key: Option<int>)
    requires ProxyRowsAre(a, rows) && ProxyRowsAre(b, rows)
    ensures SameProxy(ProxyFor(a, key), ProxyFor(b, key))
  {
    if rows == [] {
    } else {
      var n := |rows| - 1;
      ProxyForRow(a[..n], b[..n], rows[..n], key);
    }
  }

  lemma GroupsSame(a: Run, b: Run, request: Option<Query<JoinRow>>, k: nat)
    requires |a.ids| == |a.edges| == |b.edges| && a.ids == b.ids && k < |a.ids|
    requires GroupsPart(a.edges, a.ids, request, a.attached.shared)
    requires GroupsPart(b.edges, b.ids, request, b.attached.shared)
    ensures SameGroups(a.edges[k].groups, b.edges[k].groups)
  {
    if request.Some? && Owner(a.ids, k) {
      var rows := request.value(a.ids).value;
      HeldRows(rows, a.ids[k], a.attached.shared, FirstSeen(rows));
      HeldRows(rows, a.ids[k], b.attached.shared, FirstSeen(rows));
    }
  }

  lemma ProxySame(a: Run, b: Run, request: Option<Query<ProxyRow>>, k: nat)
    requires |a.keys| == |a.edges| == |b.edges| == |b.keys| && (request.Some? ==> a.keys == b.keys) && k < |a.keys|
    requires ProxyPart(a.edges, a.keys, request, a.attached.proxies)
    requires ProxyPart(b.edges, b.keys, request, b.attached.proxies)
    ensures SameProxy(a.edges[k].proxy, b.edges[k].proxy)
  {
    if request.Some? {
      ProxyForRow(a.attached.proxies, b.attached.proxies, ProxyAnswer(a.keys, request.value).value, a.keys[k]);
    }
  }

  // Logs scanned from the same stored rows, with two column lists.
  ghost predicate LogPairs(
    a: seq<UsageLog>, b: seq<UsageLog>, rows: seq<UsageLogRow>, aColumns: seq<LogColumn>, bColumns: seq<LogColumn>)
  {
    LogsAre(a, rows, aColumns) && LogsAre(b, rows, bColumns)
  }

  lemma LogPairsAppend(
    a: seq<UsageLog>, b: seq<UsageLog>, rows: seq<UsageLogRow>, aColumns: seq<LogColumn>, bColumns: seq<LogColumn>,
    x: UsageLog, y: UsageLog, row: UsageLogRow)
    requires LogPairs(a, b, rows, aColumns, bColumns)
    requires LogHolds(row, aColumns, x.row) && LogHolds(row, bColumns, y.row)
    ensures LogPairs(a + [x], b + [y], rows + [row], aColumns, bColumns)
  {
  }

  lemma {:induction false} LogPairsOf(
    a: seq<UsageLog>, b: seq<UsageLog>, rows: seq<UsageLogRow>, aColumns: seq<LogColumn>, bColumns: seq<LogColumn>,
    id: int)
    requires LogPairs(a, b, rows, aColumns, bColumns)
    ensures LogPairs(LogsOf(a, id), LogsOf(b, id), ChildrenOf(LogParent, id, rows), aColumns, bColumns)
  {
    if rows == [] {
    } else {
      var n := |rows| - 1;
      LogPairsOf(a[..n], b[..n], rows[..n], aColumns, bColumns, id);
      assert a == a[..n] + [a[n]] && b == b[..n] + [b[n]] && rows == rows[..n] + [rows[n]];
      assert LogHolds(rows[n], aColumns, a[n].row) && LogHolds(rows[n], bColumns, b[n].row);
      LogPairsAppend(LogsOf(a[..n], id), LogsOf(b[..n], id), ChildrenOf(LogParent, id, rows[..n]), aColumns, bColumns,
                     a[n], b[n], rows[n]);
      ChildrenOfAppend(LogKey, id, a[..n], a[n]);
      ChildrenOfAppend(LogKey, id, b[..n], b[n]);
      ChildrenOfAppend(LogParent, id, rows[..n], rows[n]);
    }
  }

  // Join nodes scanned from the same stored rows, with the same edges below them.
  ghost predicate JoinPairs(
    a: seq<AccountGroup>, b: seq<AccountGroup>, rows: seq<AccountGroupRow>, aColumns: seq<JoinColumn>,
    bColumns: seq<JoinColumn>)
    reads *
  {
    && |a| == |b| == |rows|
    && forall k | 0 <= k < |rows| :: JoinPair(a[k], b[k], rows[k], aColumns, bColumns)
  }

  ghost predicate JoinPair(
    a: AccountGroup, b: AccountGroup, row: AccountGroupRow, aColumns: seq<JoinColumn>, bColumns: seq<JoinColumn>)
    reads *
  {
    && a.row == ProjectJoin(row, aColumns) && b.row == ProjectJoin(row, bColumns)
    && SameGroup(a.edges.group, b.edges.group) && SameAccount(a.edges.account, b.edges.account)
  }

  lemma {:induction false} JoinPairsOf(
    a: seq<AccountGroup>, b: seq<AccountGroup>, rows: seq<AccountGroupRow>, aColumns: seq<JoinColumn>,
    bColumns: seq<JoinColumn>, id: int)
    requires JoinPairs(a, b, rows, aColumns, bColumns) && JoinAccountID in aColumns && JoinAccountID in bColumns
    ensures JoinPairs(JoinsOf(a, id), JoinsOf(b, id), ChildrenOf(JoinParent, id, rows), aColumns, bColumns)
  {
    if rows == [] {
    } else {
      var n := |rows| - 1;
      JoinPairsOf(a[..n], b[..n], rows[..n], aColumns, bColumns, id);
      assert a == a[..n] + [a[n]] && b == b[..n] + [b[n]] && rows == rows[..n] + [rows[n]];
      assert JoinPair(a[n], b[n], rows[n], aColumns, bColumns);
      ChildrenOfAppend(JoinKey, id, a[..n], a[n]);
      ChildrenOfAppend(JoinKey, id, b[..n], b[n]);
      ChildrenOfAppend(JoinParent, id, rows[..n], rows[n]);
    }
  }

  // The stored rows behind the logs and the join nodes of account k.
  function StoredLogs(request: Option<UsageLogQuery>, ids: seq<int>, k: nat): seq<UsageLogRow>
    requires k < |ids|
  {
    if request.None? || request.value.run(ids).Err? || !Owner(ids, k) then []
    else ChildrenOf(LogParent, ids[k], request.value.run(ids).value)
  }

  function StoredJoins(request: Option<AccountGroupQuery>, ids: seq<int>, k: nat): seq<AccountGroupRow>
    requires k < |ids|
  {
    if request.None? || request.value.run(ids).Err? || !Owner(ids, k) then []
    else ChildrenOf(JoinParent, ids[k], request.value.run(ids).value)
  }

  lemma LogsSame(a: Run, b: Run, request: Option<UsageLogQuery>, k: nat)
    requires |a.ids| == |a.edges| == |b.edges| && a.ids == b.ids && k < |a.ids|
    requires LogsPart(a.edges, a.ids, request, a.attached.logColumns, a.attached.logs)
    requires LogsPart(b.edges, b.ids, request, b.attached.logColumns, b.attached.logs)
    ensures LogPairs(a.edges[k].usageLogs, b.edges[k].usageLogs, StoredLogs(request, a.ids, k),
                     a.attached.logColumns, b.attached.logColumns)
  {
    if request.Some? && Owner(a.ids, k) {
      LogPairsOf(a.attached.logs, b.attached.logs, request.value.run(a.ids).value,
                 a.attached.logColumns, b.attached.logColumns, a.ids[k]);
    }
  }

  // Two loads of one join query over the same stored rows.
  ghost predicate QueriedTwice(query: AccountGroupQuery, a: LoadedJoins, b: LoadedJoins, rows: seq<AccountGroupRow>)
    reads a.joins`edges, a.accounts`scalars, b.joins`edges, b.accounts`scalars
  {
    && NodesScanned(a.joins, rows, a.columns) && EdgesAttached(query, a) && a.Error() == None
    && NodesScanned(b.joins, rows, b.columns) && EdgesAttached(query, b) && b.Error() == None
    && JoinAccountID in a.columns && JoinAccountID in b.columns
    && (query.withGroup.Some? ==> JoinGroupID in a.columns && JoinGroupID in b.columns)
  }

  lemma JoinAccountsSame(query: AccountGroupQuery, a: LoadedJoins, b: LoadedJoins, rows: seq<AccountGroupRow>, k: nat)
    requires QueriedTwice(query, a, b, rows) && k < |rows|
    ensures SameAccount(a.joins[k].edges.account, b.joins[k].edges.account)
  {
    assert a.joins[k] in a.joins && b.joins[k] in b.joins;
    assert AccountKeys(a.joins) == AccountKeys(b.joins);
  }

  lemma JoinGroupsSame(query: AccountGroupQuery, a: LoadedJoins, b: LoadedJoins, rows: seq<AccountGroupRow>, k: nat)
    requires QueriedTwice(query, a, b, rows) && k < |rows|
    ensures SameGroup(a.joins[k].edges.group, b.joins[k].edges.group)
  {
    assert a.joins[k] in a.joins && b.joins[k] in b.joins;
    if query.withGroup.Some? {
      assert GroupKeys(a.joins) == GroupKeys(b.joins);
      var found := query.withGroup.value(Dedup(Present(GroupKeys(a.joins)))).value;
      GroupForIsLookup(a.groups, found, rows[k].groupID);
      GroupForIsLookup(b.groups, found, rows[k].groupID);
    }
  }

  lemma JoinsSame(a: Run, b: Run, request: Option<AccountGroupQuery>, k: nat)
    requires |a.ids| == |a.edges| == |b.edges| && a.ids == b.ids && k < |a.ids|
    requires JoinsPart(a.edges, a.ids, request, a.attached.joins)
    requires JoinsPart(b.edges, b.ids, request, b.attached.joins)
    ensures JoinPairs(a.edges[k].accountGroups, b.edges[k].accountGroups, StoredJoins(request, a.ids, k),
                      a.attached.joins.columns, b.attached.joins.columns)
  {
    if request.Some? && Owner(a.ids, k) {
      var rows := request.value.run(a.ids).value;
      var x, y := a.attached.joins, b.attached.joins;
      forall j | 0 <= j < |rows| ensures JoinPair(x.joins[j], y.joins[j], rows[j], x.columns, y.columns) {
        JoinAccountsSame(request.value, x, y, rows, j);
        JoinGroupsSame(request.value, x, y, rows, j);
      }
      JoinPairsOf(x.joins, y.joins, rows, x.columns, y.columns, a.ids[k]);
    }
  }

  // The keys read off the nodes do not depend on the selected fields.
  lemma KeysSame(a: Run, b: Run, records: seq<Record>, requests: Requests)
    requires forall r | r in records :: ValidRecord(r)
    requires KeysAreStored(a.ids, a.keys, records, requests.proxy.Some?)
    requires KeysAreStored(b.ids, b.keys, records, requests.proxy.Some?)
    ensures a.ids == b.ids && (requests.proxy.Some? ==> a.keys == b.keys)
  {
  }

  // What two runs agree on about account k.
  ghost predicate SameEdges(a: Run, b: Run, requests: Requests, k: nat)
    requires k < |a.edges| && k < |b.edges| && k < |a.ids|
    reads *
  {
    && SameGroups(a.edges[k].groups, b.edges[k].groups)
    && SameProxy(a.edges[k].proxy, b.edges[k].proxy)
    && LogPairs(a.edges[k].usageLogs, b.edges[k].usageLogs, StoredLogs(requests.usageLogs, a.ids, k),
                a.attached.logColumns, b.attached.logColumns)
    && JoinPairs(a.edges[k].accountGroups, b.edges[k].accountGroups, StoredJoins(requests.accountGroups, a.ids, k),
                 a.attached.joins.columns, b.attached.joins.columns)
  }

  /** Two runs over the same rows, whatever fields each selected: every account gets the same
      groups and the same proxy, logs scanned from the same stored rows, and join nodes
      scanned from the same stored rows with the same account and group below them. */
  lemma ProjectionKeepsEdges(a: Run, b: Run, records: seq<Record>, requests: Requests, k: nat)
    requires Ran(a, records, requests) && Ran(b, records, requests) && k < |records|
    ensures a.ids == b.ids && SameEdges(a, b, requests, k)
  {
    KeysSame(a, b, records, requests);
    GroupsSame(a, b, requests.groups, k);
    ProxySame(a, b, requests.proxy, k);
    LogsSame(a, b, requests.usageLogs, k);
    JoinsSame(a, b, requests.accountGroups, k);
  }

  lemma RunsAgree(a: Run, b: Run, records: seq<Record>, requests: Requests)
    requires Ran(a, records, requests) && Ran(b, records, requests)
    ensures forall k | 0 <= k < |records| :: SameEdges(a, b, requests, k)
  {
    forall k | 0 <= k < |records| ensures SameEdges(a, b, requests, k) {
      ProjectionKeepsEdges(a, b, records, requests, k);
    }
  }

  // One run whose store answers with the records.
  method RunOne(query: AccountQuery, ghost records: seq<Record>)
    returns (r: Result<seq<Account>, QueryError>, ghost a: Run)
    requires query.requests.Valid() && forall x | x in records :: ValidRecord(x)
    requires query.run(FetchList(query.fields, query.requests.proxy.Some?)) == Ok(records)
    ensures match LoadFailure(records, query.requests)
            case Some(e) => r == Err(EdgeFailed(e))
            case None => r.Ok?
    ensures r.Ok? ==> |r.value| == |a.ids| == |records| && HoldEdges(r.value, a.edges)
    ensures r.Ok? && records != [] ==> Ran(a, records, query.requests)
  {
    r, a := SqlAll.SqlAll(query);
  }

  /** Two account queries that differ in the selected fields only, over the same stored rows:
      both fail with the same error, or both succeed with the same edges on every account. */
  method RunBoth(first: AccountQuery, second: AccountQuery, ghost records: seq<Record>)
    returns (r: Result<seq<Account>, QueryError>, s: Result<seq<Account>, QueryError>, ghost a: Run, ghost b: Run)
    requires first.requests.Valid() && first.requests == second.requests && forall x | x in records :: ValidRecord(x)
    requires first.run(FetchList(first.fields, first.requests.proxy.Some?)) == Ok(records)
    requires second.run(FetchList(second.fields, second.requests.proxy.Some?)) == Ok(records)
    ensures r.Ok? <==> s.Ok?
    ensures r.Err? && s.Err? ==> r.error == s.error
    ensures r.Ok? && s.Ok? ==>
              && |r.value| == |s.value| == |records| && HoldEdges(r.value, a.edges) && HoldEdges(s.value, b.edges)
              && |a.ids| == |records| && forall k | 0 <= k < |records| :: SameEdges(a, b, first.requests, k)
  {
    r, a := RunOne(first, records);
    s, b := RunOne(second, records);
    if r.Ok? && s.Ok? && records != [] {
      RunsAgree(a, b, records, first.requests);
    }
  }
}
