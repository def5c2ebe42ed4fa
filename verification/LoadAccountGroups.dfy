/** The one-to-many loader of join rows: the second way from an account to its groups. */
module LoadAccountGroups {
  import opened Wrappers
  import opened Relations
  import opened Entities
  import opened Loading
  import opened Projection
  import opened JoinQuery

  function JoinKey(n: AccountGroup): int
  {
    n.row.accountID
  }

  // The join rows of one account, in the order they came back.
  function JoinsOf(neighbors: seq<AccountGroup>, accountID: int): seq<AccountGroup>
  {
    ChildrenOf(JoinKey, accountID, neighbors)
  }

  function JoinParent(r: AccountGroupRow): int
  {
    r.accountID
  }

  ghost predicate JoinsAttached(nodes: seq<Account>, ids: seq<int>, neighbors: seq<AccountGroup>)
    requires |ids| == |nodes|
    reads nodes`edges
  {
    forall i | 0 <= i < |nodes| ::
      nodes[i].edges.accountGroups == if Owner(ids, i) then JoinsOf(neighbors, ids[i]) else []
  }

  ghost predicate JoinsOutcome(
    err: Option<LoadError>, nodes: seq<Account>, ids: seq<int>, rows: seq<AccountGroupRow>,
    neighbors: seq<AccountGroup>)
    requires |ids| == |nodes|
    reads nodes`edges
  {
    match Foreign(KeysOf(JoinParent, rows), ids)
    case None => err == None && JoinsAttached(nodes, ids, neighbors)
    case Some(fk) => err == Some(UnexpectedNode(fk))
  }

  /** loadAccountGroups: whatever fields were selected, each join node lands on the account
      its stored key names, with its own edges loaded and marked as requested. It fails
      exactly when a query fails, a nested load fails, or a key names no parent. */
  method LoadAccountGroups(nodes: seq<Account>, query: AccountGroupQuery)
    returns (err: Option<LoadError>, ghost loaded: LoadedJoins)
    requires Distinct(nodes)
    modifies nodes`edges
    ensures forall a | a in nodes :: a.edges == old(a.edges).(accountGroups := a.edges.accountGroups)
    ensures JoinsLoaded(err, nodes, IDsOf(nodes), query, query.run(IDsOf(nodes)), loaded)
  {
    var fks, nodeids := IndexAndResetJoins(nodes);
    err, loaded := AttachJoins(nodes, fks, nodeids, query, query.run(fks));
  }

  ghost predicate JoinsLoaded(
    err: Option<LoadError>, nodes: seq<Account>, ids: seq<int>, query: AccountGroupQuery,
    result: Result<seq<AccountGroupRow>, string>, loaded: LoadedJoins)
    requires |ids| == |nodes|
    reads nodes`edges, loaded.joins`edges, loaded.accounts`scalars
  {
    && JoinAccountID in loaded.columns && (query.withGroup.Some? ==> JoinGroupID in loaded.columns)
    && (forall f | f in query.fields :: f in loaded.columns)
    && match result
       case Err(e) => err == Some(QueryFailed(e))
       case Ok(rows) =>
         && NodesScanned(loaded.joins, rows, loaded.columns) && EdgesAttached(query, loaded)
         && if loaded.Error().Some? then err == loaded.Error() else JoinsOutcome(err, nodes, ids, rows, loaded.joins)
  }

  method AttachJoins(
    nodes: seq<Account>, ghost ids: seq<int>, nodeids: map<int, Account>, query: AccountGroupQuery,
    result: Result<seq<AccountGroupRow>, string>)
    returns (err: Option<LoadError>, ghost loaded: LoadedJoins)
    requires Distinct(nodes) && |ids| == |nodes| && Indexes(nodeids, nodes, ids)
    requires forall a | a in nodes :: a.edges.accountGroups == []
    modifies nodes`edges
    ensures forall a | a in nodes :: a.edges == old(a.edges).(accountGroups := a.edges.accountGroups)
    ensures JoinsLoaded(err, nodes, ids, query, result, loaded)
  {
    var fields := query.fields;
    if |fields| > 0 {
      fields := AddOnce(fields, JoinAccountID);
    }
    assert JOIN_COLUMNS[0] == JoinAccountID;
    var neighbors, nested;
    neighbors, nested, loaded := QueryAccountGroups(query.(fields := fields), result);
    err := nested;
    if nested.None? {
      err := DistributeJoins(neighbors, nodeids, nodes, ids, KeysOf(JoinParent, result.value));
    }
  }

  method IndexAndResetJoins(nodes: seq<Account>) returns (fks: seq<int>, nodeids: map<int, Account>)
    modifies nodes`edges
    ensures fks == IDsOf(nodes)
    ensures Indexes(nodeids, nodes, fks)
    ensures forall a | a in nodes :: a.edges == old(a.edges).(accountGroups := [])
  {
    fks, nodeids := [], map[];
    ghost var ids := IDsOf(nodes);
    for i := 0 to |nodes|
      invariant fks == ids[..i]
      invariant Indexes(nodeids, nodes, ids[..i])
      invariant forall a | a in nodes :: a.edges == old(a.edges).(accountGroups := a.edges.accountGroups)
      invariant forall k | 0 <= k < i :: nodes[k].edges.accountGroups == []
    {
      TakeNext(ids, i);
      IndexesStep(nodeids, nodes, ids[..i], ids[i]);
      fks := fks + [nodes[i].Id()];
      nodeids := nodeids[nodes[i].Id() := nodes[i]];
      nodes[i].edges := nodes[i].edges.(accountGroups := []);
    }
    TakeAll(ids);
  }

  method AppendJoin(
    node: Account, n: AccountGroup, ghost nodes: seq<Account>, ghost ids: seq<int>, ghost before: seq<AccountGroup>)
    requires Distinct(nodes) && |ids| == |nodes| && n.row.accountID in ids
    requires node == nodes[LastIndex(ids, n.row.accountID)]
    requires JoinsAttached(nodes, ids, before)
    modifies nodes`edges
    ensures forall a | a in nodes :: a.edges == old(a.edges).(accountGroups := a.edges.accountGroups)
    ensures JoinsAttached(nodes, ids, before + [n])
  {
    ghost var owner := LastIndex(ids, n.row.accountID);
    forall k | 0 <= k < |nodes|
      ensures Owner(ids, k) && ids[k] == n.row.accountID <==> k == owner
      ensures nodes[k] == node <==> k == owner
      ensures JoinsOf(before + [n], ids[k]) == JoinsOf(before, ids[k]) + if n.row.accountID == ids[k] then [n] else []
    {
      LastIsOwner(ids, n.row.accountID, k);
      ChildrenOfAppend(JoinKey, ids[k], before, n);
    }
    node.edges := node.edges.(accountGroups := node.edges.accountGroups + [n]);
  }

  method DistributeJoins(
    neighbors: seq<AccountGroup>, nodeids: map<int, Account>, ghost nodes: seq<Account>, ghost ids: seq<int>,
    ghost fks: seq<int>)
    returns (err: Option<LoadError>)
    requires Distinct(nodes) && |ids| == |nodes| && Indexes(nodeids, nodes, ids)
    requires |fks| == |neighbors| && forall k | 0 <= k < |fks| :: neighbors[k].row.accountID == fks[k]
    requires forall a | a in nodes :: a.edges.accountGroups == []
    modifies nodes`edges
    ensures forall a | a in nodes :: a.edges == old(a.edges).(accountGroups := a.edges.accountGroups)
    ensures match Foreign(fks, ids)
            case None => err == None && JoinsAttached(nodes, ids, neighbors)
            case Some(fk) => err == Some(UnexpectedNode(fk))
  {
    for i := 0 to |neighbors|
      invariant Foreign(fks[..i], ids).None?
      invariant forall a | a in nodes :: a.edges == old(a.edges).(accountGroups := a.edges.accountGroups)
      invariant JoinsAttached(nodes, ids, neighbors[..i])
    {
      var n := neighbors[i];
      var fk := n.row.accountID;
      ForeignStep(fks, ids, i);
      if fk !in nodeids {
        return Some(UnexpectedNode(fk));
      }
      TakeNext(neighbors, i);
      AppendJoin(nodeids[fk], n, nodes, ids, neighbors[..i]);
    }
    TakeAll(neighbors);
    TakeAll(fks);
    err := None;
  }

  ghost function JoinLists(nodes: seq<Account>): (lists: seq<seq<AccountGroup>>)
    reads nodes`edges
    ensures |lists| == |nodes| && forall i | 0 <= i < |nodes| :: lists[i] == nodes[i].edges.accountGroups
  {
    if nodes == [] then [] else JoinLists(nodes[..|nodes| - 1]) + [nodes[|nodes| - 1].edges.accountGroups]
  }

  /** Every join node ends up on exactly one account, and the accounts hold as many between
      them as came back. */
  lemma {:induction false} JoinsConserved(nodes: seq<Account>, ids: seq<int>, neighbors: seq<AccountGroup>)
    requires |ids| == |nodes| && JoinsAttached(nodes, ids, neighbors)
    requires forall n | n in neighbors :: n.row.accountID in ids
    ensures forall n, i | n in neighbors && 0 <= i < |nodes| ::
              n in nodes[i].edges.accountGroups <==> i == LastIndex(ids, n.row.accountID)
    ensures TotalLength(JoinLists(nodes)) == |neighbors|
  {
    assert JoinLists(nodes) == OwnedLists(ids, JoinKey, neighbors);
    ChildrenConserved(ids, JoinKey, neighbors);
  }
}
