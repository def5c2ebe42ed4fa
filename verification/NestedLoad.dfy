/** Eager loading at any depth. The nested query of a join node's account edge is an account
    query itself, with edges of its own: loading goes down a finite tree of requests, and the
    edges of a level are loaded before its nodes are handed to the join nodes above. */
module NestedLoad {
  import opened Wrappers
  import opened Relations
  import opened AccountColumns
  import opened Entities
  import opened Loading
  import opened Projection
  import opened LoadGroups
  import opened LoadUsageLogs
  import opened LoadAccountEdge
  import opened LoadGroupEdge
  import opened JoinQuery
  import opened LoadAccountGroups
  import opened SqlAll

  // The requests of an account query, and of the query of its join rows. What was not
  // requested is None.
  datatype AccountTree = AccountTree(
    run: Query<AccountRow>,
    groups: Option<Query<JoinRow>>,
    proxy: Option<Query<ProxyRow>>,
    usageLogs: Option<UsageLogQuery>,
    accountGroups: Option<JoinTree>)

  datatype JoinTree = JoinTree(
    fields: seq<JoinColumn>,
    run: Query<AccountGroupRow>,
    withAccount: Option<AccountTree>,
    withGroup: Option<Query<GroupRow>>)

  // One level of a tree: the requests without what the nested accounts request in turn.
  function AccountsRun(request: Option<AccountTree>): Option<Query<AccountRow>>
  {
    match request
    case None => None
    case Some(tree) => Some(tree.run)
  }

  function JoinLevel(request: Option<JoinTree>): Option<AccountGroupQuery>
  {
    match request
    case None => None
    case Some(tree) => Some(AccountGroupQuery(tree.fields, tree.run, AccountsRun(tree.withAccount), tree.withGroup))
  }

  function RequestsOf(tree: AccountTree): Requests
  {
    Requests(tree.groups, tree.proxy, tree.usageLogs, JoinLevel(tree.accountGroups))
  }

  // Every usage-log query knows the columns of its table, the key among them.
  predicate ValidTree(tree: AccountTree)
  {
    && RequestsOf(tree).Valid()
    && (tree.accountGroups.Some? ==> ValidJoins(tree.accountGroups.value))
  }

  predicate ValidJoins(tree: JoinTree)
  {
    tree.withAccount.Some? ==> ValidTree(tree.withAccount.value)
  }

  // What was loaded: the nodes of a level, the keys read off them, their edges, what was
  // attached to them, and the level of the accounts below their join nodes.
  datatype Level = Level(
    nodes: seq<Account>, ids: seq<int>, keys: seq<Option<int>>, edges: seq<AccountEdges>, attached: Attached,
    next: Option<Level>)

  function Members(nodes: seq<object>): (members: set<object>)
    ensures (forall o | o in members :: o in nodes) && forall o | o in nodes :: o in members
  {
    set o | o in nodes
  }

  // The nodes of a level and of all levels below it.
  ghost function Down(level: Level): set<object>
  {
    Members(level.nodes) + JoinMembers(level.attached.joins) + NextDown(level.next)
  }

  ghost function JoinMembers(joins: LoadedJoins): set<object>
  {
    Members(joins.joins) + Members(joins.accounts)
  }

  ghost function NextDown(next: Option<Level>): set<object>
  {
    match next
    case None => {}
    case Some(level) => Down(level)
  }

  /** Every requested edge of every level is loaded. */
  ghost predicate TreeLoaded(tree: AccountTree, level: Level)
    reads Down(level)
    decreases tree, 1
  {
    && |level.ids| == |level.keys| == |level.edges| == |level.nodes|
    && KeysAre(level.nodes, level.ids, level.keys) && HoldEdges(level.nodes, level.edges)
    && EdgesLoaded(level.edges, level.ids, level.keys, RequestsOf(tree), level.attached)
    && NextLoaded(tree.accountGroups, level.attached.joins.accounts, level.next)
  }

  ghost predicate NextLoaded(request: Option<JoinTree>, accounts: seq<Account>, next: Option<Level>)
    reads NextDown(next)
    decreases request, 0
  {
    request.Some? && request.value.withAccount.Some? && accounts != [] ==>
      && next.Some? && next.value.nodes == accounts && TreeLoaded(request.value.withAccount.value, next.value)
  }

  // The same, within a region of the heap: the nodes of the levels below are in it.
  ghost predicate LoadedIn(tree: AccountTree, level: Level, region: set<object>)
    reads level.nodes, region
  {
    Down(level) <= Members(level.nodes) + region && TreeLoaded(tree, level)
  }

  ghost predicate NextLoadedIn(
    request: Option<AccountTree>, accounts: seq<Account>, next: Option<Level>, region: set<object>)
    reads region
  {
    && NextDown(next) <= region
    && (request.Some? && accounts != [] ==>
          next.Some? && next.value.nodes == accounts && TreeLoaded(request.value, next.value))
  }

  function NestedAccounts(request: Option<JoinTree>): Option<AccountTree>
  {
    match request
    case None => None
    case Some(tree) => tree.withAccount
  }

  function ProxyKeysOf(rows: seq<AccountRow>): (keys: seq<Option<int>>)
    ensures |keys| == |rows| && forall k | 0 <= k < |rows| :: keys[k] == rows[k].counts.proxyID
  {
    seq(|rows|, k requires 0 <= k < |rows| => rows[k].counts.proxyID)
  }

  // The first error of a tree, in the order of the code, from the answers of the store: a
  // nested query runs to its end before its nodes are handed out.
  function TreeError(tree: AccountTree, ids: seq<int>, keys: seq<Option<int>>): Option<LoadError>
    decreases tree, 0
  {
    Otherwise(GroupsError(ids, tree.groups),
    Otherwise(ProxyError(keys, tree.proxy),
    Otherwise(LogsError(ids, tree.usageLogs), JoinTreeError(tree.accountGroups, ids))))
  }

  function JoinTreeError(request: Option<JoinTree>, ids: seq<int>): Option<LoadError>
  {
    match request
    case None => None
    case Some(tree) =>
      match tree.run(ids)
      case Err(e) => Some(QueryFailed(e))
      case Ok(rows) => Otherwise(BelowError(tree, rows), Stray(KeysOf(JoinParent, rows), ids))
  }

  function BelowError(tree: JoinTree, rows: seq<AccountGroupRow>): Option<LoadError>
  {
    Otherwise(AccountsError(tree.withAccount, rows), NestedError(JoinGroup, rows, GroupKey, tree.withGroup))
  }

  function AccountsError(request: Option<AccountTree>, rows: seq<AccountGroupRow>): Option<LoadError>
  {
    if rows == [] || request.None? then None
    else
      match request.value.run(Asked(KeysOf(JoinParent, rows)))
      case Err(e) => Some(QueryFailed(e))
      case Ok(found) =>
        Otherwise(FoundError(request.value, found), Stray(KeysOf(AccountKey, found), Asked(KeysOf(JoinParent, rows))))
  }

  function FoundError(tree: AccountTree, found: seq<AccountRow>): Option<LoadError>
    decreases tree, 1
  {
    if found == [] then None else TreeError(tree, KeysOf(AccountKey, found), ProxyKeysOf(found))
  }

  /** The loaders of sqlAll on scanned nodes, and below them to the end of the tree: the error
      is the first one of the tree, and without one every edge of every level is loaded. */
  method LoadTree(
    nodes: seq<Account>, ghost ids: seq<int>, ghost keys: seq<Option<int>>, tree: AccountTree,
    ghost blank: seq<AccountEdges>)
    returns (err: Option<LoadError>, ghost level: Level, ghost region: set<object>)
    requires Distinct(nodes) && KeysAre(nodes, ids, keys) && HoldEdges(nodes, blank) && ValidTree(tree)
    requires forall k | 0 <= k < |blank| :: blank[k] == AccountEdges([], null, [], [], RequestsOf(tree).Types())
    modifies nodes`edges
    ensures err == TreeError(tree, ids, keys)
    ensures level.nodes == nodes && level.ids == ids && level.keys == keys
    ensures fresh(region) && (err == None ==> LoadedIn(tree, level, region))
    decreases tree, 1
  {
    level, region := Level(nodes, ids, keys, blank, Attached([], [], [], [], NOTHING), None), {};
    ghost var attached, joins, next, own, edges;
    err, attached, own := RunOwn(nodes, ids, keys, tree, blank);
    if err.Some? { return; }
    err, joins, next, region, edges := RunJoinTree(nodes, ids, keys, tree.accountGroups, own);
    if err.Some? { return; }
    OwnAndJoins(tree, ids, keys, own, edges, attached, joins);
    level := Level(nodes, ids, keys, edges, attached.(joins := joins), next);
    LevelLoaded(tree, level, region);
  }

  // The groups, proxies and logs of a level are loaded, and its join rows are not.
  ghost predicate OwnParts(
    tree: AccountTree, ids: seq<int>, keys: seq<Option<int>>, edges: seq<AccountEdges>, attached: Attached)
    requires |ids| == |keys| == |edges|
  {
    && (forall k | 0 <= k < |edges| :: edges[k].loadedTypes == RequestsOf(tree).Types() && edges[k].accountGroups == [])
    && GroupsPart(edges, ids, tree.groups, attached.shared)
    && ProxyPart(edges, keys, tree.proxy, attached.proxies)
    && LogsPart(edges, ids, tree.usageLogs, attached.logColumns, attached.logs)
  }

  method RunOwn(
    nodes: seq<Account>, ghost ids: seq<int>, ghost keys: seq<Option<int>>, tree: AccountTree,
    ghost blank: seq<AccountEdges>)
    returns (err: Option<LoadError>, ghost attached: Attached, ghost own: seq<AccountEdges>)
    requires Distinct(nodes) && KeysAre(nodes, ids, keys) && HoldEdges(nodes, blank) && ValidTree(tree)
    requires forall k | 0 <= k < |blank| :: blank[k] == AccountEdges([], null, [], [], RequestsOf(tree).Types())
    modifies nodes`edges
    ensures err == Otherwise(GroupsError(ids, tree.groups),
              Otherwise(ProxyError(keys, tree.proxy), LogsError(ids, tree.usageLogs)))
    ensures HoldEdges(nodes, own) && (err == None ==> OwnParts(tree, ids, keys, own, attached))
  {
    attached := Attached([], [], [], [], NOTHING);
    ghost var shared, proxies, logs, columns, e1, e2;
    err, shared, e1 := RunGroups(nodes, ids, keys, tree.groups, blank);
    own := e1;
    if err.Some? { return; }
    err, proxies, e2 := RunProxy(nodes, ids, keys, tree.proxy, e1);
    own := e2;
    if err.Some? { return; }
    err, logs, columns, own := RunLogs(nodes, ids, keys, tree.usageLogs, e2);
    if err.Some? { return; }
    attached := Attached(shared, proxies, logs, columns, NOTHING);
    OwnTogether(tree, blank, e1, e2, own, ids, keys, attached);
  }

  lemma OwnTogether(
    tree: AccountTree, blank: seq<AccountEdges>, e1: seq<AccountEdges>, e2: seq<AccountEdges>, own: seq<AccountEdges>,
    ids: seq<int>, keys: seq<Option<int>>, attached: Attached)
    requires |ids| == |keys| == |blank| == |e1| == |e2| == |own|
    requires forall k | 0 <= k < |blank| :: blank[k] == AccountEdges([], null, [], [], RequestsOf(tree).Types())
    requires forall k | 0 <= k < |e1| :: e1[k] == blank[k].(groups := e1[k].groups)
    requires forall k | 0 <= k < |e2| :: e2[k] == e1[k].(proxy := e2[k].proxy)
    requires forall k | 0 <= k < |own| :: own[k] == e2[k].(usageLogs := own[k].usageLogs)
    requires GroupsPart(e1, ids, tree.groups, attached.shared) && ProxyPart(e2, keys, tree.proxy, attached.proxies)
    requires LogsPart(own, ids, tree.usageLogs, attached.logColumns, attached.logs)
    ensures OwnParts(tree, ids, keys, own, attached)
  {
    GroupsKept(e1, own, ids, tree.groups, attached.shared);
    ProxyKept(e2, own, keys, tree.proxy, attached.proxies);
  }

  lemma OwnAndJoins(
    tree: AccountTree, ids: seq<int>, keys: seq<Option<int>>, own: seq<AccountEdges>, edges: seq<AccountEdges>,
    attached: Attached, joins: LoadedJoins)
    requires |ids| == |keys| == |own| == |edges| && OwnParts(tree, ids, keys, own, attached)
    requires forall k | 0 <= k < |edges| :: edges[k] == own[k].(accountGroups := edges[k].accountGroups)
    requires JoinsPart(edges, ids, JoinLevel(tree.accountGroups), joins)
    ensures EdgesLoaded(edges, ids, keys, RequestsOf(tree), attached.(joins := joins))
  {
    GroupsKept(own, edges, ids, tree.groups, attached.shared);
    ProxyKept(own, edges, keys, tree.proxy, attached.proxies);
    LogsKept(own, edges, ids, tree.usageLogs, attached.logColumns, attached.logs);
  }

  lemma LevelLoaded(tree: AccountTree, level: Level, region: set<object>)
    requires |level.ids| == |level.keys| == |level.edges| == |level.nodes|
    requires KeysAre(level.nodes, level.ids, level.keys) && HoldEdges(level.nodes, level.edges)
    requires EdgesLoaded(level.edges, level.ids, level.keys, RequestsOf(tree), level.attached)
    requires NextLoadedIn(NestedAccounts(tree.accountGroups), level.attached.joins.accounts, level.next, region)
    requires JoinMembers(level.attached.joins) <= region
    ensures LoadedIn(tree, level, region)
  {
  }

  method RunJoinTree(
    nodes: seq<Account>, ghost ids: seq<int>, ghost keys: seq<Option<int>>, request: Option<JoinTree>,
    ghost before: seq<AccountEdges>)
    returns (err: Option<LoadError>, ghost joins: LoadedJoins, ghost next: Option<Level>,
      ghost region: set<object>, ghost after: seq<AccountEdges>)
    requires Distinct(nodes) && KeysAre(nodes, ids, keys) && HoldEdges(nodes, before)
    requires request.Some? ==> ValidJoins(request.value)
    requires forall k | 0 <= k < |before| :: before[k].accountGroups == []
    modifies nodes`edges
    ensures HoldEdges(nodes, after)
    ensures forall k | 0 <= k < |after| :: after[k] == before[k].(accountGroups := after[k].accountGroups)
    ensures err == JoinTreeError(request, ids)
    ensures fresh(region) && JoinMembers(joins) <= region
    ensures err == None ==> JoinsPart(after, ids, JoinLevel(request), joins)
    ensures err == None ==> NextLoadedIn(NestedAccounts(request), joins.accounts, next, region)
    decreases request, 2
  {
    err, joins, next, region := None, NOTHING, None, {};
    assert IDsOf(nodes) == ids;
    if request.Some? {
      err, joins, next, region := LoadJoinTree(nodes, ids, request.value);
    }
    after := EdgesOf(nodes);
    if request.Some? && err.None? {
      JoinsPartOf(nodes, ids, after, request.value, joins);
    }
  }

  lemma JoinsPartOf(nodes: seq<Account>, ids: seq<int>, edges: seq<AccountEdges>, tree: JoinTree, joins: LoadedJoins)
    requires |ids| == |nodes| && HoldEdges(nodes, edges) && JoinsLoadedDown(tree, nodes, ids, joins)
    ensures JoinsPart(edges, ids, JoinLevel(Some(tree)), joins)
  {
  }

  // What loadAccountGroups leaves when it succeeds.
  ghost predicate JoinsLoadedDown(
    tree: JoinTree, nodes: seq<Account>, ids: seq<int>, joins: LoadedJoins)
    requires |ids| == |nodes|
    reads nodes`edges, joins.joins`edges, joins.accounts`scalars
  {
    && tree.run(ids).Ok? && Foreign(KeysOf(JoinParent, tree.run(ids).value), ids) == None
    && QueriedDown(tree, tree.run(ids).value, joins) && JoinsAttached(nodes, ids, joins.joins)
  }

  ghost predicate QueriedDown(tree: JoinTree, rows: seq<AccountGroupRow>, joins: LoadedJoins)
    reads joins.joins`edges, joins.accounts`scalars
  {
    && JoinAccountID in joins.columns && (tree.withGroup.Some? ==> JoinGroupID in joins.columns)
    && NodesScanned(joins.joins, rows, joins.columns) && joins.Error() == None
    && EdgesAttached(JoinLevel(Some(tree)).value, joins)
  }

  // loadAccountGroups: index the accounts, run the nested query with all that is below it,
  // and hand its nodes out.
  method LoadJoinTree(nodes: seq<Account>, ghost ids: seq<int>, tree: JoinTree)
    returns (err: Option<LoadError>, ghost joins: LoadedJoins, ghost next: Option<Level>,
      ghost region: set<object>)
    requires Distinct(nodes) && ids == IDsOf(nodes) && ValidJoins(tree)
    modifies nodes`edges
    ensures forall a | a in nodes :: a.edges == old(a.edges).(accountGroups := a.edges.accountGroups)
    ensures err == JoinTreeError(Some(tree), ids)
    ensures fresh(region) && JoinMembers(joins) <= region
    ensures err == None ==> JoinsLoadedDown(tree, nodes, ids, joins)
    ensures err == None ==> NextLoadedIn(tree.withAccount, joins.accounts, next, region)
    decreases tree, 2
  {
    joins, next, region := NOTHING, None, {};
    var fks, nodeids := IndexAndResetJoins(nodes);
    match tree.run(fks)
    case Err(e) =>
      err := Some(QueryFailed(e));
    case Ok(rows) =>
      var neighbors;
      neighbors, err, joins, next, region := QueryJoinTree(tree, rows);
      if err.None? {
        err := HandOut(neighbors, nodeids, nodes, ids, tree, rows, joins, next, region);
      }
  }

  // The loop over the neighbours leaves what is below them alone.
  method HandOut(
    neighbors: seq<AccountGroup>, nodeids: map<int, Account>, ghost nodes: seq<Account>, ghost ids: seq<int>,
    ghost tree: JoinTree, ghost rows: seq<AccountGroupRow>, ghost joins: LoadedJoins, ghost next: Option<Level>,
    ghost region: set<object>)
    returns (err: Option<LoadError>)
    requires Distinct(nodes) && |ids| == |nodes| && Indexes(nodeids, nodes, ids) && joins.joins == neighbors
    requires |neighbors| == |rows| && forall k | 0 <= k < |rows| :: neighbors[k].row.accountID == rows[k].accountID
    requires QueriedDown(tree, rows, joins) && NextLoadedIn(tree.withAccount, joins.accounts, next, region)
    requires forall a | a in nodes :: a !in region && a.edges.accountGroups == []
    requires tree.run(ids) == Ok(rows)
    modifies nodes`edges
    ensures forall a | a in nodes :: a.edges == old(a.edges).(accountGroups := a.edges.accountGroups)
    ensures NextLoadedIn(tree.withAccount, joins.accounts, next, region)
    ensures err == Stray(KeysOf(JoinParent, rows), ids)
    ensures err == None ==> JoinsLoadedDown(tree, nodes, ids, joins)
  {
    err := DistributeJoins(neighbors, nodeids, nodes, ids, KeysOf(JoinParent, rows));
    assert QueriedDown(tree, rows, joins);
    assert NextLoadedIn(tree.withAccount, joins.accounts, next, region);
  }

  // sqlAll of the join entity: the account edge with all that is below it, then the group edge.
  method QueryJoinTree(tree: JoinTree, rows: seq<AccountGroupRow>)
    returns (nodes: seq<AccountGroup>, err: Option<LoadError>, ghost joins: LoadedJoins, ghost next: Option<Level>,
      ghost region: set<object>)
    requires ValidJoins(tree)
    ensures joins.joins == nodes && fresh(region) && JoinMembers(joins) <= region
    ensures err == BelowError(tree, rows)
    ensures |nodes| == |rows| && forall k | 0 <= k < |rows| :: nodes[k].row.accountID == rows[k].accountID
    ensures err == None ==> QueriedDown(tree, rows, joins)
    ensures err == None ==> NextLoadedIn(tree.withAccount, joins.accounts, next, region)
    decreases tree, 1
  {
    var fields := tree.fields;
    if |fields| > 0 {
      fields := AddOnce(fields, JoinAccountID);
    }
    assert JOIN_COLUMNS[0] == JoinAccountID;
    var columns := JoinColumnsToFetch(fields, tree.withAccount.Some?, tree.withGroup.Some?);
    ghost var own;
    nodes, own := ScanBelow(rows, columns, tree.withAccount.Some?, tree.withGroup.Some?);
    err, joins, next, region := LoadBelow(nodes, tree, rows, columns);
    region := region + own;
  }

  // The edges of scanned join nodes.
  method LoadBelow(
    nodes: seq<AccountGroup>, tree: JoinTree, ghost rows: seq<AccountGroupRow>, ghost columns: seq<JoinColumn>)
    returns (err: Option<LoadError>, ghost joins: LoadedJoins, ghost next: Option<Level>, ghost region: set<object>)
    requires ValidJoins(tree) && NodesScanned(nodes, rows, columns)
    requires JoinAccountID in columns && (tree.withGroup.Some? ==> JoinGroupID in columns)
    requires forall a | a in nodes ::
               a.edges == AccountGroupEdges(null, null, tree.withAccount.Some?, tree.withGroup.Some?)
    modifies nodes`edges
    ensures joins.joins == nodes && fresh(region) && Members(joins.accounts) <= region
    ensures err == BelowError(tree, rows)
    ensures err == None ==> QueriedDown(tree, rows, joins)
    ensures err == None ==> NextLoadedIn(tree.withAccount, joins.accounts, next, region)
    decreases tree, 0
  {
    ghost var query := JoinLevel(Some(tree)).value;
    ghost var accounts, groups;
    err, accounts, next, region := LoadAccountsDown(nodes, rows, columns, query, tree.withAccount);
    joins := LoadedJoins(nodes, columns, None, None, accounts, []);
    if err.Some? {
      return;
    }
    err, groups := LoadGroupsOf(nodes, rows, columns, query, tree.withGroup, accounts);
    joins := LoadedJoins(nodes, columns, None, err, accounts, groups);
    if err.None? {
      QueriedTogether(tree, rows, joins);
    }
  }

  lemma QueriedTogether(tree: JoinTree, rows: seq<AccountGroupRow>, joins: LoadedJoins)
    requires JoinAccountID in joins.columns && (tree.withGroup.Some? ==> JoinGroupID in joins.columns)
    requires NodesScanned(joins.joins, rows, joins.columns) && joins.Error() == None
    requires Marked(joins.joins, JoinLevel(Some(tree)).value)
    requires AccountEdgeOutcome(None, AccountsRun(tree.withAccount), joins.joins, joins.accounts)
    requires GroupEdgeOutcome(None, tree.withGroup, joins.joins, joins.groups)
    ensures QueriedDown(tree, rows, joins)
  {
  }

  lemma KeysStored(nodes: seq<AccountGroup>, rows: seq<AccountGroupRow>, columns: seq<JoinColumn>)
    requires NodesScanned(nodes, rows, columns)
    ensures JoinAccountID in columns ==> Dedup(Present(AccountKeys(nodes))) == Asked(KeysOf(JoinParent, rows))
    ensures JoinGroupID in columns ==> Dedup(Present(GroupKeys(nodes))) == Asked(KeysOf(JoinGroup, rows))
  {
    var accountIDs, groupIDs := KeysOf(JoinParent, rows), KeysOf(JoinGroup, rows);
    if JoinAccountID in columns {
      assert AccountKeys(nodes) == seq(|accountIDs|, k requires 0 <= k < |accountIDs| => Some(accountIDs[k]));
    }
    if JoinGroupID in columns {
      assert GroupKeys(nodes) == seq(|groupIDs|, k requires 0 <= k < |groupIDs| => Some(groupIDs[k]));
    }
  }

  method LoadGroupsOf(
    nodes: seq<AccountGroup>, ghost rows: seq<AccountGroupRow>, ghost columns: seq<JoinColumn>,
    ghost query: AccountGroupQuery, request: Option<Query<GroupRow>>, ghost accounts: seq<Account>)
    returns (err: Option<LoadError>, ghost groups: seq<Group>)
    requires NodesScanned(nodes, rows, columns) && (request.Some? ==> JoinGroupID in columns)
    requires query.withGroup == request && Marked(nodes, query)
    requires AccountEdgeOutcome(None, query.withAccount, nodes, accounts)
    requires forall a | a in nodes :: a.edges.group == null
    modifies nodes`edges
    ensures AccountEdgeOutcome(None, query.withAccount, nodes, accounts) && Marked(nodes, query)
    ensures err == NestedError(JoinGroup, rows, GroupKey, request) && GroupEdgeOutcome(err, request, nodes, groups)
  {
    err, groups := None, [];
    KeysStored(nodes, rows, columns);
    if request.Some? {
      err, groups := LoadGroup(nodes, request.value);
    }
  }

  // loadAccount with a nested query that has edges of its own.
  method LoadAccountsDown(
    nodes: seq<AccountGroup>, ghost rows: seq<AccountGroupRow>, ghost columns: seq<JoinColumn>,
    ghost query: AccountGroupQuery, request: Option<AccountTree>)
    returns (err: Option<LoadError>, ghost accounts: seq<Account>, ghost next: Option<Level>,
      ghost region: set<object>)
    requires NodesScanned(nodes, rows, columns) && JoinAccountID in columns
    requires query.withAccount == AccountsRun(request) && (request.Some? ==> ValidTree(request.value))
    requires forall a | a in nodes ::
               a.edges == AccountGroupEdges(null, null, query.withAccount.Some?, query.withGroup.Some?)
    modifies nodes`edges
    ensures Marked(nodes, query) && forall a | a in nodes :: a.edges.group == null
    ensures err == AccountsError(request, rows) && fresh(region) && Members(accounts) <= region
    ensures err == None ==> AccountEdgeOutcome(None, query.withAccount, nodes, accounts)
    ensures err == None ==> NextLoadedIn(request, accounts, next, region)
    decreases request, 0
  {
    err, accounts, next, region := None, [], None, {};
    if request.None? || |nodes| == 0 {
      return;
    }
    var ids, nodeids := BucketByAccount(nodes);
    KeysStored(nodes, rows, columns);
    match request.value.run(ids)
    case Err(e) =>
      err := Some(QueryFailed(e));
    case Ok(found) =>
      var built;
      built, err, next, region := QueryAccountTree(request.value, found);
      accounts := built;
      if err.None? {
        err := AttachAccountEdges(nodes, AccountKeys(nodes), ids, nodeids, built, found);
      }
  }

  // The fresh nodes of a nested query, and their region of the heap.
  method ScanBelow(rows: seq<AccountGroupRow>, columns: seq<JoinColumn>, withAccount: bool, withGroup: bool)
    returns (nodes: seq<AccountGroup>, ghost own: set<object>)
    ensures NodesScanned(nodes, rows, columns) && own == Members(nodes) && fresh(own) && fresh(nodes)
    ensures forall a | a in nodes :: a.edges == AccountGroupEdges(null, null, withAccount, withGroup)
  {
    nodes := ScanJoinNodes(rows, columns, withAccount, withGroup);
    own := Members(nodes);
  }

  method BuildBelow(found: seq<AccountRow>, types: LoadedTypes) returns (built: seq<Account>, ghost own: set<object>)
    ensures AccountsAre(built, found) && Distinct(built) && own == Members(built) && fresh(own) && fresh(built)
    ensures forall a | a in built :: a.edges == AccountEdges([], null, [], [], types)
  {
    built := BuildAccounts(found, types);
    own := Members(built);
  }

  // sqlAll of the nested account query.
  method QueryAccountTree(tree: AccountTree, found: seq<AccountRow>)
    returns (built: seq<Account>, err: Option<LoadError>, ghost next: Option<Level>,
      ghost region: set<object>)
    requires ValidTree(tree)
    ensures fresh(region) && Members(built) <= region && AccountsAre(built, found)
    ensures err == FoundError(tree, found)
    ensures err == None ==> NextLoadedIn(Some(tree), built, next, region)
    decreases tree, 2
  {
    ghost var own, below;
    built, own := BuildBelow(found, RequestsOf(tree).Types());
    err, next, region := None, None, own;
    if |built| > 0 {
      ghost var level;
      err, level, below := LoadTree(built, KeysOf(AccountKey, found), ProxyKeysOf(found), tree, EdgesOf(built));
      next := Some(level);
      region := own + below;
    }
  }

  // The accessors of every node of every level say what was requested there and what came back.
  ghost predicate Accessors(tree: AccountTree, level: Level)
    reads Down(level)
    decreases tree, 1
  {
    && |level.ids| == |level.keys| == |level.edges| == |level.nodes| && HoldEdges(level.nodes, level.edges)
    && (forall k | 0 <= k < |level.edges| ::
          AccountAccessors(level.edges, level.ids, level.keys, RequestsOf(tree), level.attached, k))
    && (tree.accountGroups.Some? ==>
          && (forall k | 0 <= k < |level.attached.joins.joins| ::
                JoinAccessors(JoinLevel(tree.accountGroups).value, level.attached.joins, k))
          && AccessorsBelow(tree.accountGroups.value, level.attached.joins.accounts, level.next))
  }

  ghost predicate AccessorsBelow(tree: JoinTree, accounts: seq<Account>, next: Option<Level>)
    reads NextDown(next)
    decreases tree, 0
  {
    tree.withAccount.Some? && accounts != [] ==>
      next.Some? && next.value.nodes == accounts && Accessors(tree.withAccount.value, next.value)
  }

  /** The edge contract at every depth: after a successful load, an accessor of any node of
      the tree says "not loaded" exactly when its edge was not requested at that level, "not
      found" exactly when no row of its key came back there, and otherwise returns the joined
      nodes, whose own accessors do the same. */
  lemma {:induction false} EveryAccessor(tree: AccountTree, level: Level)
    requires TreeLoaded(tree, level)
    ensures Accessors(tree, level)
    decreases tree
  {
    forall k | 0 <= k < |level.edges|
      ensures AccountAccessors(level.edges, level.ids, level.keys, RequestsOf(tree), level.attached, k)
    {
      EdgeContract(level.edges, level.ids, level.keys, RequestsOf(tree), level.attached, k);
    }
    if tree.accountGroups.Some? {
      var joins := level.attached.joins;
      forall k | 0 <= k < |joins.joins| ensures JoinAccessors(JoinLevel(tree.accountGroups).value, joins, k) {
        JoinEdgeContract(JoinLevel(tree.accountGroups).value, joins, k);
      }
      if tree.accountGroups.value.withAccount.Some? && joins.accounts != [] {
        EveryAccessor(tree.accountGroups.value.withAccount.value, level.next.value);
      }
    }
  }

  // The nested account query of the tree, if there is one, requests no edges.
  predicate OneLevel(tree: AccountTree)
  {
    var nested := NestedAccounts(tree.accountGroups);
    nested.Some? ==> RequestsOf(nested.value) == Requests(None, None, None, None)
  }

  /** A tree of one level fails exactly as the account query of SqlAll does. */
  lemma OneLevelError(tree: AccountTree, ids: seq<int>, keys: seq<Option<int>>)
    requires OneLevel(tree)
    ensures TreeError(tree, ids, keys) == EdgesError(ids, keys, RequestsOf(tree))
  {
    if tree.accountGroups.Some? && tree.accountGroups.value.run(ids).Ok? {
      var joins := tree.accountGroups.value;
      OneLevelAccounts(joins.withAccount, joins.run(ids).value);
      assert JoinTreeError(tree.accountGroups, ids)
          == Otherwise(BelowError(joins, joins.run(ids).value), Stray(KeysOf(JoinParent, joins.run(ids).value), ids));
    }
  }

  lemma OneLevelAccounts(request: Option<AccountTree>, rows: seq<AccountGroupRow>)
    requires request.Some? ==> RequestsOf(request.value) == Requests(None, None, None, None)
    ensures AccountsError(request, rows) == NestedError(JoinParent, rows, AccountKey, AccountsRun(request))
  {
    if request.Some? {
      forall found ensures FoundError(request.value, found) == None {
        assert JoinTreeError(request.value.accountGroups, KeysOf(AccountKey, found)) == None;
      }
    }
  }
}
