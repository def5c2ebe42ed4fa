/** The whole account query: fetch the columns, scan the rows into fresh nodes, run the
    requested loaders one after the other, and read the edges back. */
module SqlAll {
  import opened Wrappers
  import opened Relations
  import opened AccountColumns
  import opened AccountScan
  import opened Entities
  import opened Loading
  import opened Projection
  import opened LoadGroups
  import opened ManyToMany
  import opened LoadProxy
  import opened LoadUsageLogs
  import opened LoadAccountEdge
  import opened LoadGroupEdge
  import opened JoinQuery
  import opened LoadAccountGroups

  // A With* request that was not made is None.
  datatype Requests = Requests(
    groups: Option<Query<JoinRow>>,
    proxy: Option<Query<ProxyRow>>,
    usageLogs: Option<UsageLogQuery>,
    accountGroups: Option<AccountGroupQuery>)
  {
    function Types(): LoadedTypes
    {
      LoadedTypes(groups.Some?, proxy.Some?, usageLogs.Some?, accountGroups.Some?)
    }

    // The usage-log query knows the columns of its table, the keys among them.
    predicate Valid()
    {
      usageLogs.Some? ==> KeysListed(usageLogs.value.all)
    }
  }

  datatype QueryError = StoreFailed(reason: string) | ScanFailed(error: AssignError) | EdgeFailed(edge: LoadError)

  // The objects the loaders attached.
  datatype Attached = Attached(
    shared: seq<Group>, proxies: seq<Proxy>, logs: seq<UsageLog>, logColumns: seq<LogColumn>, joins: LoadedJoins)

  // Node k carries the listed columns of record k; its other fields are zero.
  ghost predicate Carries(node: Account, record: Record, columns: seq<Column>)
    reads node`scalars
  {
    forall c: Column | !c.Other? ::
      Field(node.scalars.row, c) == if c in columns then Loaded(record, c) else Field(ZERO, c)
  }

  ghost predicate NodesCarry(nodes: seq<Account>, records: seq<Record>, columns: seq<Column>)
    reads nodes`scalars
  {
    |nodes| == |records| && forall k | 0 <= k < |records| :: Carries(nodes[k], records[k], columns)
  }

  // The driver scans the row into the destinations it was given; a column the row has no
  // value for stays NULL.
  function ScannedInto(values: seq<Cell>, columns: seq<Column>, record: Record): (filled: seq<Cell>)
    requires |values| == |columns|
    ensures |filled| == |columns|
  {
    seq(|columns|, i requires 0 <= i < |columns| && |values| == |columns| =>
      if columns[i] in record && SameKind(values[i], record[columns[i]]) then record[columns[i]] else values[i])
  }

  // The fetched columns hold no JSON text that does not parse.
  ghost predicate Parsable(record: Record, columns: seq<Column>)
  {
    forall k | 0 <= k < |columns| && columns[k].Json? && columns[k] in record ::
      record[columns[k]] != Bytes(Some(BadText))
  }

  method ScanAccount(record: Record, columns: seq<Column>, types: LoadedTypes)
    returns (node: Account, err: Option<AssignError>)
    ensures fresh(node) && node.edges == AccountEdges([], null, [], [], types)
    ensures err == None <==> Parsable(record, columns)
    ensures err.Some? ==> err.value.BadJson?
    ensures ValidRecord(record) ==> err == None && Carries(node, record, columns)
  {
    var values := ScanValues(columns);
    values := ScannedInto(values, columns, record);
    node := new Account(types);
    err := node.AssignValues(columns, values);
    ScannedCellsFailOnlyOnBadJson(Scanned(ZERO, map[]), columns, values, |columns|);
    if ValidRecord(record) {
      assert columns[..|columns|] == columns;
      forall c: Column | !c.Other?
        ensures err == None
        ensures Field(node.scalars.row, c) == if c in columns then Loaded(record, c) else Field(ZERO, c)
      {
        ReadingARecord(record, columns, values, |columns|, c);
      }
      ReadingARecord(record, columns, values, |columns|, Whole(ID));
    }
  }

  // spec.Assign over every row: the first scan error ends the query.
  method ScanAccounts(records: seq<Record>, columns: seq<Column>, types: LoadedTypes)
    returns (nodes: seq<Account>, err: Option<AssignError>)
    ensures fresh(nodes) && Distinct(nodes)
    ensures forall a | a in nodes :: a.edges == AccountEdges([], null, [], [], types)
    ensures (forall r | r in records :: ValidRecord(r)) ==>
              err == None && NodesCarry(nodes, records, columns)
    ensures err == None ==> |nodes| == |records|
    ensures err == None <==> forall r | r in records :: Parsable(r, columns)
    ensures err.Some? ==> err.value.BadJson?
  {
    nodes := [];
    for i := 0 to |records|
      invariant |nodes| == i && fresh(nodes) && Distinct(nodes)
      invariant forall a | a in nodes :: a.edges == AccountEdges([], null, [], [], types)
      invariant (forall r | r in records :: ValidRecord(r)) ==>
                  forall k | 0 <= k < i :: Carries(nodes[k], records[k], columns)
      invariant forall k | 0 <= k < i :: Parsable(records[k], columns)
    {
      var node, scanned := ScanAccount(records[i], columns, types);
      nodes := nodes + [node];
      if scanned.Some? {
        return nodes, scanned;
      }
    }
    err := None;
  }

  // The edge structs of the nodes, as values.
  ghost predicate HoldEdges(nodes: seq<Account>, edges: seq<AccountEdges>)
    reads nodes`edges
  {
    |edges| == |nodes| && forall k | 0 <= k < |nodes| :: nodes[k].edges == edges[k]
  }

  // The keys the loaders read off the nodes.
  ghost predicate KeysAre(nodes: seq<Account>, ids: seq<int>, keys: seq<Option<int>>)
    reads nodes`scalars
  {
    && |ids| == |keys| == |nodes|
    && forall k | 0 <= k < |nodes| :: nodes[k].Id() == ids[k] && nodes[k].ProxyID() == keys[k]
  }

  ghost predicate GroupsPart(
    edges: seq<AccountEdges>, ids: seq<int>, request: Option<Query<JoinRow>>, shared: seq<Group>)
    requires |ids| == |edges|
  {
    match request
    case None => forall k | 0 <= k < |edges| :: edges[k].groups == []
    case Some(query) =>
      && query(ids).Ok? && RowsNameParents(query(ids).value, ids)
      && RowsAre(shared, FirstSeen(query(ids).value))
      && forall k | 0 <= k < |edges| ::
           edges[k].groups == if Owner(ids, k) then GroupsHeld(query(ids).value, ids[k], shared) else []
  }

  // The rows behind a proxy edge: no query runs when no account has a key.
  function ProxyAnswer(keys: seq<Option<int>>, query: Query<ProxyRow>): Result<seq<ProxyRow>, string>
  {
    var asked := Dedup(Present(keys));
    if asked == [] then Ok([]) else query(asked)
  }

  ghost predicate ProxyPart(
    edges: seq<AccountEdges>, keys: seq<Option<int>>, request: Option<Query<ProxyRow>>, proxies: seq<Proxy>)
    requires |keys| == |edges|
  {
    match request
    case None => forall k | 0 <= k < |edges| :: edges[k].proxy == null
    case Some(query) =>
      && ProxyAnswer(keys, query).Ok?
      && Foreign(KeysOf(ProxyKey, ProxyAnswer(keys, query).value), Dedup(Present(keys))) == None
      && ProxyRowsAre(proxies, ProxyAnswer(keys, query).value)
      && forall k | 0 <= k < |edges| :: edges[k].proxy == ProxyFor(proxies, keys[k])
  }

  ghost predicate LogsPart(
    edges: seq<AccountEdges>, ids: seq<int>, request: Option<UsageLogQuery>, columns: seq<LogColumn>,
    logs: seq<UsageLog>)
    requires |ids| == |edges|
  {
    match request
    case None => forall k | 0 <= k < |edges| :: edges[k].usageLogs == []
    case Some(query) =>
      && query.run(ids).Ok? && KeysListed(columns) && Foreign(KeysOf(LogParent, query.run(ids).value), ids) == None
      && LogsAre(logs, query.run(ids).value, columns)
      && forall k | 0 <= k < |edges| :: edges[k].usageLogs == if Owner(ids, k) then LogsOf(logs, ids[k]) else []
  }

  ghost predicate JoinsPart(
    edges: seq<AccountEdges>, ids: seq<int>, request: Option<AccountGroupQuery>, joins: LoadedJoins)
    requires |ids| == |edges|
    reads joins.joins`edges, joins.accounts`scalars
  {
    match request
    case None => forall k | 0 <= k < |edges| :: edges[k].accountGroups == []
    case Some(query) =>
      && query.run(ids).Ok? && Foreign(KeysOf(JoinParent, query.run(ids).value), ids) == None
      && JoinAccountID in joins.columns && (query.withGroup.Some? ==> JoinGroupID in joins.columns)
      && NodesScanned(joins.joins, query.run(ids).value, joins.columns)
      && EdgesAttached(query, joins) && joins.Error() == None
      && forall k | 0 <= k < |edges| ::
           edges[k].accountGroups == if Owner(ids, k) then JoinsOf(joins.joins, ids[k]) else []
  }

  // Everything a successful query promises about the edges.
  ghost predicate EdgesLoaded(
    edges: seq<AccountEdges>, ids: seq<int>, keys: seq<Option<int>>, requests: Requests, attached: Attached)
    requires |ids| == |keys| == |edges|
    reads attached.joins.joins`edges, attached.joins.accounts`scalars
  {
    && (forall k | 0 <= k < |edges| :: edges[k].loadedTypes == requests.Types())
    && GroupsPart(edges, ids, requests.groups, attached.shared)
    && ProxyPart(edges, keys, requests.proxy, attached.proxies)
    && LogsPart(edges, ids, requests.usageLogs, attached.logColumns, attached.logs)
    && JoinsPart(edges, ids, requests.accountGroups, attached.joins)
  }

  // How each loader fails, given the answers to its queries.
  function GroupsError(ids: seq<int>, request: Option<Query<JoinRow>>): Option<LoadError>
  {
    if request.None? then None
    else match request.value(ids)
         case Err(e) => Some(QueryFailed(e))
         case Ok(rows) => if RowsNameParents(rows, ids) then None else Some(NilNode)
  }

  function ProxyError(keys: seq<Option<int>>, request: Option<Query<ProxyRow>>): Option<LoadError>
  {
    if request.None? then None
    else match ProxyAnswer(keys, request.value)
         case Err(e) => Some(QueryFailed(e))
         case Ok(rows) => Stray(KeysOf(ProxyKey, rows), Dedup(Present(keys)))
  }

  function Stray(fks: seq<int>, ids: seq<int>): Option<LoadError>
  {
    var fk := Foreign(fks, ids);
    if fk.Some? then Some(UnexpectedNode(fk.value)) else None
  }

  function LogsError(ids: seq<int>, request: Option<UsageLogQuery>): Option<LoadError>
  {
    if request.None? then None
    else match request.value.run(ids)
         case Err(e) => Some(QueryFailed(e))
         case Ok(rows) => Stray(KeysOf(LogParent, rows), ids)
  }

  function JoinGroup(r: AccountGroupRow): int
  {
    r.groupID
  }

  // The keys a nested load asks for.
  function Asked(keys: seq<int>): seq<int>
  {
    Dedup(Present(seq(|keys|, k requires 0 <= k < |keys| => Some(keys[k]))))
  }

  function NestedError<R>(
    key: AccountGroupRow -> int, rows: seq<AccountGroupRow>, id: R -> int, request: Option<Query<R>>): Option<LoadError>
  {
    if rows == [] || request.None? then None
    else
      match request.value(Asked(KeysOf(key, rows)))
      case Err(e) => Some(QueryFailed(e))
      case Ok(found) => Stray(KeysOf(id, found), Asked(KeysOf(key, rows)))
  }

  function JoinsError(ids: seq<int>, request: Option<AccountGroupQuery>): Option<LoadError>
  {
    if request.None? then None
    else match request.value.run(ids)
         case Err(e) => Some(QueryFailed(e))
         case Ok(rows) =>
           Otherwise(NestedError(JoinParent, rows, AccountKey, request.value.withAccount),
           Otherwise(NestedError(JoinGroup, rows, GroupKey, request.value.withGroup),
             Stray(KeysOf(JoinParent, rows), ids)))
  }

  // The first loader that fails, in the order of sqlAll.
  function EdgesError(ids: seq<int>, keys: seq<Option<int>>, requests: Requests): Option<LoadError>
  {
    Otherwise(GroupsError(ids, requests.groups),
    Otherwise(ProxyError(keys, requests.proxy),
    Otherwise(LogsError(ids, requests.usageLogs), JoinsError(ids, requests.accountGroups))))
  }

  lemma JoinsErrorIs(
    err: Option<LoadError>, nodes: seq<Account>, ids: seq<int>, query: AccountGroupQuery, loaded: LoadedJoins)
    requires |ids| == |nodes| && JoinsLoaded(err, nodes, ids, query, query.run(ids), loaded)
    ensures err == JoinsError(ids, Some(query))
  {
    if query.run(ids).Ok? {
      var rows := query.run(ids).value;
      var accountIDs, groupIDs := KeysOf(JoinParent, rows), KeysOf(JoinGroup, rows);
      assert AccountKeys(loaded.joins) == seq(|accountIDs|, k requires 0 <= k < |accountIDs| => Some(accountIDs[k]));
      if query.withGroup.Some? {
        assert GroupKeys(loaded.joins) == seq(|groupIDs|, k requires 0 <= k < |groupIDs| => Some(groupIDs[k]));
      }
    }
  }

  // A later loader leaves the earlier edges alone.
  lemma GroupsKept(
    before: seq<AccountEdges>, after: seq<AccountEdges>, ids: seq<int>, request: Option<Query<JoinRow>>,
    shared: seq<Group>)
    requires |ids| == |before| == |after| && forall k | 0 <= k < |before| :: after[k].groups == before[k].groups
    requires GroupsPart(before, ids, request, shared)
    ensures GroupsPart(after, ids, request, shared)
  {
  }

  lemma ProxyKept(
    before: seq<AccountEdges>, after: seq<AccountEdges>, keys: seq<Option<int>>, request: Option<Query<ProxyRow>>,
    proxies: seq<Proxy>)
    requires |keys| == |before| == |after| && forall k | 0 <= k < |before| :: after[k].proxy == before[k].proxy
    requires ProxyPart(before, keys, request, proxies)
    ensures ProxyPart(after, keys, request, proxies)
  {
  }

  lemma LogsKept(
    before: seq<AccountEdges>, after: seq<AccountEdges>, ids: seq<int>, request: Option<UsageLogQuery>,
    columns: seq<LogColumn>, logs: seq<UsageLog>)
    requires |ids| == |before| == |after| && forall k | 0 <= k < |before| :: after[k].usageLogs == before[k].usageLogs
    requires LogsPart(before, ids, request, columns, logs)
    ensures LogsPart(after, ids, request, columns, logs)
  {
  }

  ghost function EdgesOf(nodes: seq<Account>): (edges: seq<AccountEdges>)
    reads nodes`edges
    ensures HoldEdges(nodes, edges)
  {
    if nodes == [] then [] else EdgesOf(nodes[..|nodes| - 1]) + [nodes[|nodes| - 1].edges]
  }

  method RunGroups(
    nodes: seq<Account>, ghost ids: seq<int>, ghost keys: seq<Option<int>>, request: Option<Query<JoinRow>>,
    ghost before: seq<AccountEdges>)
    returns (err: Option<LoadError>, ghost shared: seq<Group>, ghost after: seq<AccountEdges>)
    requires Distinct(nodes) && KeysAre(nodes, ids, keys) && HoldEdges(nodes, before)
    requires forall k | 0 <= k < |before| :: before[k].groups == []
    modifies nodes`edges
    ensures HoldEdges(nodes, after) && forall k | 0 <= k < |after| :: after[k] == before[k].(groups := after[k].groups)
    ensures err == GroupsError(ids, request)
    ensures err == None ==> GroupsPart(after, ids, request, shared)
  {
    assert IDsOf(nodes) == ids;
    err, shared := None, [];
    if request.Some? {
      err, shared := LoadGroups.LoadGroups(nodes, request.value);
    }
    after := EdgesOf(nodes);
  }

  method RunProxy(
    nodes: seq<Account>, ghost ids: seq<int>, ghost keys: seq<Option<int>>, request: Option<Query<ProxyRow>>,
    ghost before: seq<AccountEdges>)
    returns (err: Option<LoadError>, ghost proxies: seq<Proxy>, ghost after: seq<AccountEdges>)
    requires Distinct(nodes) && KeysAre(nodes, ids, keys) && HoldEdges(nodes, before)
    requires forall k | 0 <= k < |before| :: before[k].proxy == null
    modifies nodes`edges
    ensures HoldEdges(nodes, after) && forall k | 0 <= k < |after| :: after[k] == before[k].(proxy := after[k].proxy)
    ensures err == ProxyError(keys, request)
    ensures err == None ==> ProxyPart(after, keys, request, proxies)
  {
    assert ProxyIDsOf(nodes) == keys;
    err, proxies := None, [];
    if request.Some? {
      err, proxies := LoadProxy.LoadProxy(nodes, request.value);
      assert ProxyIDsOf(nodes) == keys;
      assert err == ProxyError(keys, request);
      after := EdgesOf(nodes);
      if err == None {
        ProxyPartIs(nodes, after, keys, request.value, proxies);
      }
    } else {
      after := EdgesOf(nodes);
    }
  }

  lemma ProxyPartIs(
    nodes: seq<Account>, edges: seq<AccountEdges>, keys: seq<Option<int>>, query: Query<ProxyRow>, proxies: seq<Proxy>)
    requires |keys| == |nodes| && HoldEdges(nodes, edges) && ProxyError(keys, Some(query)).None?
    requires ProxiesAttached(nodes, keys, ProxyAnswer(keys, query).value, proxies)
    ensures ProxyPart(edges, keys, Some(query), proxies)
  {
  }

  method RunLogs(
    nodes: seq<Account>, ghost ids: seq<int>, ghost keys: seq<Option<int>>, request: Option<UsageLogQuery>,
    ghost before: seq<AccountEdges>)
    returns (err: Option<LoadError>, ghost logs: seq<UsageLog>, ghost columns: seq<LogColumn>,
      ghost after: seq<AccountEdges>)
    requires Distinct(nodes) && KeysAre(nodes, ids, keys) && HoldEdges(nodes, before)
    requires forall k | 0 <= k < |before| :: before[k].usageLogs == []
    requires request.Some? ==> KeysListed(request.value.all)
    modifies nodes`edges
    ensures HoldEdges(nodes, after)
    ensures forall k | 0 <= k < |after| :: after[k] == before[k].(usageLogs := after[k].usageLogs)
    ensures err == LogsError(ids, request)
    ensures err == None ==> LogsPart(after, ids, request, columns, logs)
  {
    assert IDsOf(nodes) == ids;
    err, logs, columns := None, [], [];
    if request.Some? {
      err, logs, columns := LoadUsageLogs.LoadUsageLogs(nodes, request.value);
    }
    after := EdgesOf(nodes);
  }

  method RunJoins(
    nodes: seq<Account>, ghost ids: seq<int>, ghost keys: seq<Option<int>>, request: Option<AccountGroupQuery>,
    ghost before: seq<AccountEdges>)
    returns (err: Option<LoadError>, ghost joins: LoadedJoins, ghost after: seq<AccountEdges>)
    requires Distinct(nodes) && KeysAre(nodes, ids, keys) && HoldEdges(nodes, before)
    requires forall k | 0 <= k < |before| :: before[k].accountGroups == []
    modifies nodes`edges
    ensures HoldEdges(nodes, after)
    ensures forall k | 0 <= k < |after| :: after[k] == before[k].(accountGroups := after[k].accountGroups)
    ensures err == JoinsError(ids, request)
    ensures err == None ==> JoinsPart(after, ids, request, joins)
  {
    assert IDsOf(nodes) == ids;
    err, joins := None, NOTHING;
    if request.Some? {
      err, joins := LoadAccountGroups.LoadAccountGroups(nodes, request.value);
      JoinsErrorIs(err, nodes, ids, request.value, joins);
    }
    after := EdgesOf(nodes);
  }

  /** The four loaders in the order of sqlAll; the first error ends the query. */
  method LoadEdges(
    nodes: seq<Account>, ghost ids: seq<int>, ghost keys: seq<Option<int>>, requests: Requests,
    ghost blank: seq<AccountEdges>)
    returns (err: Option<LoadError>, ghost attached: Attached, ghost edges: seq<AccountEdges>)
    requires Distinct(nodes) && KeysAre(nodes, ids, keys) && HoldEdges(nodes, blank) && requests.Valid()
    requires forall k | 0 <= k < |blank| :: blank[k] == AccountEdges([], null, [], [], requests.Types())
    modifies nodes`edges
    ensures HoldEdges(nodes, edges)
    ensures err == EdgesError(ids, keys, requests)
    ensures err == None ==> EdgesLoaded(edges, ids, keys, requests, attached)
  {
    attached := Attached([], [], [], [], NOTHING);
    ghost var shared, proxies, logs, columns, joins, e1, e2, e3;
    err, shared, e1 := RunGroups(nodes, ids, keys, requests.groups, blank);
    edges := e1;
    if err.Some? { return; }
    err, proxies, e2 := RunProxy(nodes, ids, keys, requests.proxy, e1);
    edges := e2;
    if err.Some? { return; }
    err, logs, columns, e3 := RunLogs(nodes, ids, keys, requests.usageLogs, e2);
    edges := e3;
    if err.Some? { return; }
    err, joins, edges := RunJoins(nodes, ids, keys, requests.accountGroups, e3);
    if err.Some? { return; }
    attached := Attached(shared, proxies, logs, columns, joins);
    PartsTogether(blank, e1, e2, e3, edges, ids, keys, requests, attached);
  }

  lemma PartsTogether(
    blank: seq<AccountEdges>, e1: seq<AccountEdges>, e2: seq<AccountEdges>, e3: seq<AccountEdges>,
    edges: seq<AccountEdges>,
    ids: seq<int>, keys: seq<Option<int>>, requests: Requests, attached: Attached)
    requires |ids| == |keys| == |blank| == |e1| == |e2| == |e3| == |edges|
    requires forall k | 0 <= k < |blank| :: blank[k].loadedTypes == requests.Types()
    requires forall k | 0 <= k < |e1| :: e1[k] == blank[k].(groups := e1[k].groups)
    requires forall k | 0 <= k < |e2| :: e2[k] == e1[k].(proxy := e2[k].proxy)
    requires forall k | 0 <= k < |e3| :: e3[k] == e2[k].(usageLogs := e3[k].usageLogs)
    requires forall k | 0 <= k < |edges| :: edges[k] == e3[k].(accountGroups := edges[k].accountGroups)
    requires GroupsPart(e1, ids, requests.groups, attached.shared)
    requires ProxyPart(e2, keys, requests.proxy, attached.proxies)
    requires LogsPart(e3, ids, requests.usageLogs, attached.logColumns, attached.logs)
    requires JoinsPart(edges, ids, requests.accountGroups, attached.joins)
    ensures EdgesLoaded(edges, ids, keys, requests, attached)
  {
    GroupsKept(e1, edges, ids, requests.groups, attached.shared);
    ProxyKept(e2, edges, keys, requests.proxy, attached.proxies);
    LogsKept(e3, edges, ids, requests.usageLogs, attached.logColumns, attached.logs);
  }

  // The account query: the selected fields, the rows the store returns for a column list,
  // and the edges to load.
  datatype AccountQuery = AccountQuery(
    fields: seq<Column>, run: seq<Column> -> Result<seq<Record>, string>, requests: Requests)

  function StoredID(record: Record): int
    requires ValidRecord(record)
  {
    if Read(record, Whole(ID)).i.Some? then Read(record, Whole(ID)).i.value else 0
  }

  function StoredProxyID(record: Record): Option<int>
    requires ValidRecord(record)
  {
    Read(record, Whole(ProxyID)).i
  }

  // What one run of the query read and attached.
  datatype Run = Run(
    columns: seq<Column>, ids: seq<int>, keys: seq<Option<int>>, edges: seq<AccountEdges>, attached: Attached)

  lemma CarriedKeys(node: Account, record: Record, columns: seq<Column>)
    requires ValidRecord(record) && Carries(node, record, columns)
    ensures Whole(ID) in columns ==> node.Id() == StoredID(record)
    ensures Whole(ProxyID) in columns ==> node.ProxyID() == StoredProxyID(record)
  {
    assert Field(node.scalars.row, Whole(ID)) == Int64(Some(node.Id()));
    assert Field(node.scalars.row, Whole(ProxyID)) == Int64(node.ProxyID());
    assert Field(ZERO, Whole(ID)) == Int64(Some(0)) && Field(ZERO, Whole(ProxyID)) == Int64(None);
  }

  function StoredIDs(records: seq<Record>): (ids: seq<int>)
    requires forall r | r in records :: ValidRecord(r)
    ensures |ids| == |records| && forall k | 0 <= k < |records| :: ids[k] == StoredID(records[k])
  {
    if records == [] then [] else StoredIDs(records[..|records| - 1]) + [StoredID(records[|records| - 1])]
  }

  function StoredProxyIDs(records: seq<Record>): (keys: seq<Option<int>>)
    requires forall r | r in records :: ValidRecord(r)
    ensures |keys| == |records| && forall k | 0 <= k < |records| :: keys[k] == StoredProxyID(records[k])
  {
    if records == [] then [] else StoredProxyIDs(records[..|records| - 1]) + [StoredProxyID(records[|records| - 1])]
  }

  // Whether and how a query over these rows fails once they are scanned.
  function LoadFailure(records: seq<Record>, requests: Requests): Option<LoadError>
    requires forall r | r in records :: ValidRecord(r)
  {
    if records == [] then None else EdgesError(StoredIDs(records), StoredProxyIDs(records), requests)
  }

  /** sqlAll: the columns follow from the selected fields and the requested edges. The query
      fails when the store does, when a fetched JSON column does not parse, or when a loader
      fails on the stored keys; otherwise there is one node per row, holding the fetched
      columns, and every requested edge is loaded, from the stored keys whatever fields were
      selected, and no other. */
  method SqlAll(query: AccountQuery) returns (result: Result<seq<Account>, QueryError>, ghost run: Run)
    requires query.requests.Valid()
    ensures run.columns == FetchList(query.fields, query.requests.proxy.Some?)
    ensures match query.run(FetchList(query.fields, query.requests.proxy.Some?))
            case Err(e) => result == Err(StoreFailed(e))
            case Ok(records) =>
              && ((exists r | r in records :: !Parsable(r, run.columns)) ==> result.Err? && result.error.ScanFailed?)
              && ((forall r | r in records :: ValidRecord(r)) ==>
                    match LoadFailure(records, query.requests)
                    case Some(e) => result == Err(EdgeFailed(e))
                    case None => result.Ok?)
              && (result.Ok? ==> |result.value| == |records|)
    ensures result.Ok? ==>
              && HoldEdges(result.value, run.edges) && KeysAre(result.value, run.ids, run.keys)
              && (result.value != [] ==> EdgesLoaded(run.edges, run.ids, run.keys, query.requests, run.attached))
    ensures result.Ok? && (forall r | r in query.run(run.columns).value :: ValidRecord(r)) ==>
              var records := query.run(run.columns).value;
              && KeysAreStored(run.ids, run.keys, records, query.requests.proxy.Some?)
              && NodesCarry(result.value, records, run.columns)
  {
    var columns := AccountColumnsToFetch(query.fields, query.requests.proxy.Some?);
    run := Run(columns, [], [], [], Attached([], [], [], [], NOTHING));
    match query.run(columns)
    case Err(e) =>
      result := Err(StoreFailed(e));
    case Ok(records) =>
      var nodes, scanError, ids, keys, blank := ScanKeyed(records, columns, query.requests);
      if scanError.Some? {
        return Err(ScanFailed(scanError.value)), run;
      }
      run := run.(ids := ids, keys := keys, edges := blank);
      if |nodes| == 0 {
        return Ok(nodes), run;
      }
      ghost var attached, edges;
      var edgeError;
      if forall r | r in records :: ValidRecord(r) {
        FailureByStoredKeys(ids, keys, records, query.requests);
      }
      edgeError, attached, edges := LoadEdges(nodes, ids, keys, query.requests, blank);
      run := run.(edges := edges, attached := attached);
      result := if edgeError.Some? then Err(EdgeFailed(edgeError.value)) else Ok(nodes);
  }

  // The scanned nodes, with the keys later read off them.
  method ScanKeyed(records: seq<Record>, columns: seq<Column>, requests: Requests)
    returns (
      nodes: seq<Account>, err: Option<AssignError>, ghost ids: seq<int>, ghost keys: seq<Option<int>>,
      ghost blank: seq<AccountEdges>)
    requires Whole(ID) in columns && (requests.proxy.Some? ==> Whole(ProxyID) in columns)
    ensures fresh(nodes) && Distinct(nodes)
    ensures KeysAre(nodes, ids, keys) && HoldEdges(nodes, blank)
    ensures forall k | 0 <= k < |blank| :: blank[k] == AccountEdges([], null, [], [], requests.Types())
    ensures err == None ==> |nodes| == |records|
    ensures err == None <==> forall r | r in records :: Parsable(r, columns)
    ensures err.Some? ==> err.value.BadJson?
    ensures err == None && (forall r | r in records :: ValidRecord(r)) ==>
              KeysAreStored(ids, keys, records, requests.proxy.Some?) && NodesCarry(nodes, records, columns)
  {
    nodes, err := ScanAccounts(records, columns, requests.Types());
    ids, keys, blank := IDsOf(nodes), ProxyIDsOf(nodes), EdgesOf(nodes);
    if err == None && forall r | r in records :: ValidRecord(r) {
      forall k | 0 <= k < |nodes|
        ensures ids[k] == StoredID(records[k])
        ensures requests.proxy.Some? ==> keys[k] == StoredProxyID(records[k])
      {
        CarriedKeys(nodes[k], records[k], columns);
      }
    }
  }

  ghost predicate KeysAreStored(ids: seq<int>, keys: seq<Option<int>>, records: seq<Record>, withProxy: bool)
    requires forall r | r in records :: ValidRecord(r)
  {
    && |ids| == |keys| == |records|
    && forall k | 0 <= k < |records| ::
         ids[k] == StoredID(records[k]) && (withProxy ==> keys[k] == StoredProxyID(records[k]))
  }

  // The proxy accessor after a successful query.
  lemma ProxyContract(
    edges: seq<AccountEdges>, keys: seq<Option<int>>, request: Option<Query<ProxyRow>>, proxies: seq<Proxy>, k: nat)
    requires |keys| == |edges| && k < |edges|
    requires ProxyPart(edges, keys, request, proxies) && edges[k].loadedTypes.proxy == request.Some?
    ensures edges[k].ProxyOrErr() == Err(NotLoaded("proxy")) <==> request.None?
    ensures request.Some? ==>
              var rows := ProxyAnswer(keys, request.value).value;
              && (edges[k].ProxyOrErr() == Err(NotFound("proxy")) <==> forall r | r in rows :: keys[k] != Some(r.id))
              && (edges[k].ProxyOrErr().Ok? ==>
                    edges[k].ProxyOrErr().value.row in rows && keys[k] == Some(edges[k].ProxyOrErr().value.row.id))
  {
    if request.Some? {
      var rows := ProxyAnswer(keys, request.value).value;
      ProxyForIsTheMatch(proxies, keys[k]);
      forall r | r in rows ensures exists n | n in proxies :: n.row == r {
        var i :| 0 <= i < |rows| && rows[i] == r;
        assert proxies[i].row == r;
      }
    }
  }

  lemma FailureByStoredKeys(ids: seq<int>, keys: seq<Option<int>>, records: seq<Record>, requests: Requests)
    requires forall r | r in records :: ValidRecord(r)
    requires KeysAreStored(ids, keys, records, requests.proxy.Some?) && records != []
    ensures LoadFailure(records, requests) == EdgesError(ids, keys, requests)
  {
    assert ids == StoredIDs(records);
    assert requests.proxy.Some? ==> keys == StoredProxyIDs(records);
  }

  // What the accessors of node k return.
  ghost predicate AccountAccessors(
    edges: seq<AccountEdges>, ids: seq<int>, keys: seq<Option<int>>, requests: Requests, attached: Attached, k: nat)
    requires |ids| == |keys| == |edges| && k < |edges|
  {
    && (edges[k].GroupsOrErr() == Err(NotLoaded("groups")) <==> requests.groups.None?)
    && (edges[k].GroupsOrErr().Ok? && Owner(ids, k) ==>
          requests.groups.value(ids).Ok?
          && RowsAre(edges[k].GroupsOrErr().value, GroupsOf(requests.groups.value(ids).value, ids[k])))
    && (edges[k].UsageLogsOrErr() == Err(NotLoaded("usage_logs")) <==> requests.usageLogs.None?)
    && (edges[k].UsageLogsOrErr().Ok? && Owner(ids, k) ==>
          edges[k].UsageLogsOrErr().value == LogsOf(attached.logs, ids[k]))
    && (edges[k].AccountGroupsOrErr() == Err(NotLoaded("account_groups")) <==> requests.accountGroups.None?)
    && (edges[k].AccountGroupsOrErr().Ok? && Owner(ids, k) ==>
          edges[k].AccountGroupsOrErr().value == JoinsOf(attached.joins.joins, ids[k]))
    && (edges[k].ProxyOrErr() == Err(NotLoaded("proxy")) <==> requests.proxy.None?)
    && (requests.proxy.Some? ==>
          var answer := ProxyAnswer(keys, requests.proxy.value);
          && answer.Ok?
          && (edges[k].ProxyOrErr() == Err(NotFound("proxy")) <==>
                forall r | r in answer.value :: keys[k] != Some(r.id))
          && (edges[k].ProxyOrErr().Ok? ==>
                && edges[k].ProxyOrErr().value.row in answer.value
                && keys[k] == Some(edges[k].ProxyOrErr().value.row.id)))
  }

  /** The edge contract of the accessors after a successful query: an edge reports "not
      loaded" exactly when it was not requested, and the proxy reports "not found" exactly
      when it was requested and no proxy with that key came back. Otherwise the accessors
      return the joined rows. */
  lemma EdgeContract(
    edges: seq<AccountEdges>, ids: seq<int>, keys: seq<Option<int>>, requests: Requests, attached: Attached, k: nat)
    requires |ids| == |keys| == |edges| && k < |edges|
    ensures EdgesLoaded(edges, ids, keys, requests, attached) ==>
              AccountAccessors(edges, ids, keys, requests, attached, k)
  {
    if !EdgesLoaded(edges, ids, keys, requests, attached) {
      return;
    }
    if requests.groups.Some? && Owner(ids, k) {
      var rows := requests.groups.value(ids).value;
      HeldRows(rows, ids[k], attached.shared, FirstSeen(rows));
    }
    ProxyContract(edges, keys, requests.proxy, attached.proxies, k);
  }
}
