/** AccountGroupQuery.sqlAll: the rows of the join table as nodes, with their account and
    group edges. */
module JoinQuery {
  import opened Wrappers
  import opened Relations
  import opened AccountColumns
  import opened Entities
  import opened Loading
  import opened Projection
  import opened AccountGroupScan
  import opened LoadAccountEdge
  import opened LoadGroupEdge

  // An edge that was not requested is None.
  datatype AccountGroupQuery = AccountGroupQuery(
    fields: seq<JoinColumn>,
    run: Query<AccountGroupRow>,
    withAccount: Option<Query<AccountRow>>,
    withGroup: Option<Query<GroupRow>>)

  // The join nodes, the columns they were scanned from, how their two edges loaded, and
  // what was attached.
  datatype LoadedJoins = LoadedJoins(
    joins: seq<AccountGroup>,
    columns: seq<JoinColumn>,
    accountError: Option<LoadError>,
    groupError: Option<LoadError>,
    accounts: seq<Account>,
    groups: seq<Group>)
  {
    function Error(): Option<LoadError>
    {
      Otherwise(accountError, groupError)
    }
  }

  const NOTHING := LoadedJoins([], [], None, None, [], [])

  ghost predicate NodesScanned(nodes: seq<AccountGroup>, rows: seq<AccountGroupRow>, columns: seq<JoinColumn>)
  {
    && |nodes| == |rows| && Distinct(nodes)
    && forall k | 0 <= k < |rows| :: nodes[k].row == ProjectJoin(rows[k], columns)
  }

  // The edges of the join nodes: the accounts are loaded first, and an error ends it.
  ghost predicate EdgesAttached(query: AccountGroupQuery, loaded: LoadedJoins)
    reads loaded.joins`edges, loaded.accounts`scalars
  {
    && AccountEdgeOutcome(loaded.accountError, query.withAccount, loaded.joins, loaded.accounts)
    && (if loaded.accountError.Some? then loaded.groupError == None
        else GroupEdgeOutcome(loaded.groupError, query.withGroup, loaded.joins, loaded.groups))
    && Marked(loaded.joins, query)
  }

  ghost predicate KeysFetched(query: AccountGroupQuery, columns: seq<JoinColumn>)
  {
    && (query.withAccount.Some? ==> JoinAccountID in columns) && (query.withGroup.Some? ==> JoinGroupID in columns)
    && (forall f | f in query.fields :: f in columns) && (query.fields == [] ==> columns == JOIN_COLUMNS)
  }

  /** sqlAll: scan the fetched columns of each row into a fresh node, then load the requested
      edges; the first error ends the query. */
  method QueryAccountGroups(query: AccountGroupQuery, result: Result<seq<AccountGroupRow>, string>)
    returns (nodes: seq<AccountGroup>, err: Option<LoadError>, ghost loaded: LoadedJoins)
    ensures fresh(nodes) && loaded.joins == nodes && fresh(loaded.accounts) && KeysFetched(query, loaded.columns)
    ensures match result
            case Err(e) => nodes == [] && err == Some(QueryFailed(e))
            case Ok(rows) =>
              NodesScanned(nodes, rows, loaded.columns) && EdgesAttached(query, loaded) && err == loaded.Error()
  {
    var fetched := JoinColumnsToFetch(query.fields, query.withAccount.Some?, query.withGroup.Some?);
    match result
    case Err(e) =>
      nodes, err, loaded := [], Some(QueryFailed(e)), NOTHING.(columns := fetched);
    case Ok(rows) =>
      nodes := ScanJoinNodes(rows, fetched, query.withAccount.Some?, query.withGroup.Some?);
      err, loaded := LoadJoinEdges(nodes, fetched, query);
  }

  method LoadJoinEdges(nodes: seq<AccountGroup>, ghost columns: seq<JoinColumn>, query: AccountGroupQuery)
    returns (err: Option<LoadError>, ghost loaded: LoadedJoins)
    requires Distinct(nodes)
    requires forall a | a in nodes ::
               a.edges == AccountGroupEdges(null, null, query.withAccount.Some?, query.withGroup.Some?)
    modifies nodes`edges
    ensures loaded.joins == nodes && loaded.columns == columns && fresh(loaded.accounts)
    ensures EdgesAttached(query, loaded) && err == loaded.Error()
  {
    ghost var accounts, groups;
    if |nodes| == 0 {
      return None, NOTHING.(columns := columns);
    }
    err, accounts := LoadAccountPart(nodes, query);
    loaded := LoadedJoins(nodes, columns, err, None, accounts, []);
    if err.Some? {
      return;
    }
    err, groups := LoadGroupPart(nodes, query, accounts);
    loaded := LoadedJoins(nodes, columns, None, err, accounts, groups);
  }

  // The edges carry the marks of the query.
  ghost predicate Marked(nodes: seq<AccountGroup>, query: AccountGroupQuery)
    reads nodes`edges
  {
    forall a | a in nodes ::
      a.edges.loadedAccount == query.withAccount.Some? && a.edges.loadedGroup == query.withGroup.Some?
  }

  method LoadAccountPart(nodes: seq<AccountGroup>, query: AccountGroupQuery)
    returns (err: Option<LoadError>, ghost accounts: seq<Account>)
    requires Distinct(nodes)
    requires forall a | a in nodes ::
               a.edges == AccountGroupEdges(null, null, query.withAccount.Some?, query.withGroup.Some?)
    modifies nodes`edges
    ensures fresh(accounts) && AccountEdgeOutcome(err, query.withAccount, nodes, accounts) && Marked(nodes, query)
    ensures forall a | a in nodes :: a.edges.group == null
  {
    err, accounts := None, [];
    if query.withAccount.Some? {
      err, accounts := LoadAccount(nodes, query.withAccount.value);
    }
  }

  method LoadGroupPart(nodes: seq<AccountGroup>, query: AccountGroupQuery, ghost accounts: seq<Account>)
    returns (err: Option<LoadError>, ghost groups: seq<Group>)
    requires Distinct(nodes) && AccountEdgeOutcome(None, query.withAccount, nodes, accounts) && Marked(nodes, query)
    requires forall a | a in nodes :: a.edges.group == null
    modifies nodes`edges
    ensures AccountEdgeOutcome(None, query.withAccount, nodes, accounts) && Marked(nodes, query)
    ensures GroupEdgeOutcome(err, query.withGroup, nodes, groups)
  {
    err, groups := None, [];
    if query.withGroup.Some? {
      err, groups := LoadGroup(nodes, query.withGroup.value);
    }
  }

  method ScanJoinNodes(rows: seq<AccountGroupRow>, columns: seq<JoinColumn>, withAccount: bool, withGroup: bool)
    returns (nodes: seq<AccountGroup>)
    ensures NodesScanned(nodes, rows, columns) && fresh(nodes)
    ensures forall a | a in nodes :: a.edges == AccountGroupEdges(null, null, withAccount, withGroup)
  {
    nodes := [];
    for i := 0 to |rows|
      invariant |nodes| == i && Distinct(nodes)
      invariant forall k | 0 <= k < i :: nodes[k].row == ProjectJoin(rows[k], columns)
      invariant fresh(nodes)
      invariant forall a | a in nodes :: a.edges == AccountGroupEdges(null, null, withAccount, withGroup)
    {
      var values := seq(|columns|, j requires 0 <= j < |columns| => JoinCell(rows[i], columns[j]));
      ReadingAJoinRow(rows[i], columns, values, |columns|);
      TakeAll(columns);
      var row, _ := AssignJoinValues(ZERO_JOIN, columns, values);
      var node := new AccountGroup(row, withAccount, withGroup);
      nodes := nodes + [node];
    }
  }

  // What the accessors of join node k return.
  ghost predicate JoinAccessors(query: AccountGroupQuery, loaded: LoadedJoins, k: nat)
    requires k < |loaded.joins|
    reads loaded.joins`edges, loaded.accounts`scalars
  {
    var edges, row := loaded.joins[k].edges, loaded.joins[k].row;
    && (edges.AccountOrErr() == Err(NotLoaded("account")) <==> query.withAccount.None?)
    && (edges.GroupOrErr() == Err(NotLoaded("group")) <==> query.withGroup.None?)
    && (query.withAccount.Some? ==>
          var answer := query.withAccount.value(Dedup(Present(AccountKeys(loaded.joins))));
          && answer.Ok?
          && (edges.AccountOrErr() == Err(NotFound("account")) <==>
                forall r | r in answer.value :: r.counts.id != row.accountID)
          && (edges.AccountOrErr().Ok? ==>
                && edges.account in loaded.accounts && edges.account.scalars.row in answer.value
                && edges.account.scalars.row.counts.id == row.accountID))
    && (query.withGroup.Some? ==>
          var answer := query.withGroup.value(Dedup(Present(GroupKeys(loaded.joins))));
          && answer.Ok?
          && (edges.GroupOrErr() == Err(NotFound("group")) <==> forall r | r in answer.value :: r.id != row.groupID)
          && (edges.GroupOrErr().Ok? ==>
                edges.group.row in answer.value && edges.group.row.id == row.groupID))
  }

  /** The accessors of a join node after a successful query: an edge reports "not loaded"
      exactly when it was not requested, "not found" exactly when it was requested and none of
      its key came back; otherwise it returns one of its key. */
  lemma {:induction false} JoinEdgeContract(query: AccountGroupQuery, loaded: LoadedJoins, k: nat)
    requires EdgesAttached(query, loaded) && loaded.Error() == None && k < |loaded.joins|
    ensures JoinAccessors(query, loaded, k)
  {
    var a := loaded.joins[k];
    assert a in loaded.joins;
    if query.withAccount.Some? {
      var rows := query.withAccount.value(Dedup(Present(AccountKeys(loaded.joins)))).value;
      AccountForIsTheMatch(loaded.accounts, rows, a.row.accountID);
    }
    if query.withGroup.Some? {
      var rows := query.withGroup.value(Dedup(Present(GroupKeys(loaded.joins)))).value;
      GroupForIsTheMatch(loaded.groups, a.row.groupID);
      forall r | r in rows ensures exists n | n in loaded.groups :: n.row == r {
        var i :| 0 <= i < |rows| && rows[i] == r;
        assert loaded.groups[i].row == r;
      }
    }
  }
}
