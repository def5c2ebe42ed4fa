/** The many-to-one loader of the join entity's accounts: AccountGroupQuery.loadAccount, for a
    nested query that requests no edges of its own; NestedLoad has the other ones. */
module LoadAccountEdge {
  import opened Wrappers
  import opened Relations
  import opened AccountColumns
  import opened AccountScan
  import opened Entities
  import opened Loading

  function AccountKeys(nodes: seq<AccountGroup>): (keys: seq<Option<int>>)
    ensures |keys| == |nodes|
    ensures forall k | 0 <= k < |nodes| :: keys[k] == Some(nodes[k].row.accountID)
  {
    seq(|nodes|, i requires 0 <= i < |nodes| => Some(nodes[i].row.accountID))
  }

  function AccountKey(r: AccountRow): int
  {
    r.counts.id
  }

  // The account a key ends up with: the last neighbour of that ID.
  function AccountFor(neighbors: seq<Account>, rows: seq<AccountRow>, key: Option<int>): Account?
    requires |neighbors| == |rows|
  {
    if key.None? || LastIndex(KeysOf(AccountKey, rows), key.value) < 0 then null
    else neighbors[LastIndex(KeysOf(AccountKey, rows), key.value)]
  }

  // The account objects of some rows.
  ghost predicate AccountsAre(neighbors: seq<Account>, rows: seq<AccountRow>)
    reads neighbors`scalars
  {
    |neighbors| == |rows| && forall k | 0 <= k < |rows| :: neighbors[k].scalars.row == rows[k]
  }

  ghost predicate AccountEdgesAre(
    nodes: seq<AccountGroup>, keys: seq<Option<int>>, rows: seq<AccountRow>, neighbors: seq<Account>)
    requires |keys| == |nodes| && |neighbors| == |rows|
    reads nodes`edges
  {
    forall k | 0 <= k < |nodes| :: nodes[k].edges.account == AccountFor(neighbors, rows, keys[k])
  }

  /** A join node ends without an account exactly when none of its key came back; otherwise it
      holds one of its key, and the only one if the rows have distinct IDs. */
  lemma AccountForIsTheMatch(neighbors: seq<Account>, rows: seq<AccountRow>, key: int)
    requires |neighbors| == |rows|
    ensures AccountFor(neighbors, rows, Some(key)) == null <==> forall r | r in rows :: r.counts.id != key
    ensures AccountFor(neighbors, rows, Some(key)) != null ==>
              exists k | 0 <= k < |rows| ::
                rows[k].counts.id == key && AccountFor(neighbors, rows, Some(key)) == neighbors[k]
    ensures Distinct(KeysOf(AccountKey, rows)) ==>
              forall k | 0 <= k < |rows| && rows[k].counts.id == key ::
                AccountFor(neighbors, rows, Some(key)) == neighbors[k]
  {
    var ids := KeysOf(AccountKey, rows);
    var last := LastIndex(ids, key);
    if last >= 0 {
      assert rows[last] in rows && ids[last] == rows[last].counts.id;
    } else {
      forall r | r in rows ensures r.counts.id != key {
        var k :| 0 <= k < |rows| && rows[k] == r;
        assert ids[k] == r.counts.id;
      }
    }
  }

  method BucketByAccount(nodes: seq<AccountGroup>) returns (ids: seq<int>, nodeids: map<int, seq<AccountGroup>>)
    ensures Partitioned(ids, nodeids, nodes, AccountKeys(nodes))
  {
    ids, nodeids := [], map[];
    ghost var keys := AccountKeys(nodes);
    for i := 0 to |nodes|
      invariant Partitioned(ids, nodeids, nodes[..i], keys[..i])
    {
      TakeNext(keys, i);
      TakeNext(nodes, i);
      var fk := nodes[i].row.accountID;
      PartitionStep(ids, nodeids, nodes[..i], keys[..i], nodes[i], fk);
      if fk !in nodeids {
        ids := ids + [fk];
      }
      nodeids := nodeids[fk := if fk in nodeids then nodeids[fk] + [nodes[i]] else [nodes[i]]];
    }
    TakeAll(keys);
    TakeAll(nodes);
  }

  method AssignAccountEdge(
    bucket: seq<AccountGroup>, n: Account, fk: int, ghost nodes: seq<AccountGroup>, ghost keys: seq<Option<int>>)
    requires Distinct(nodes) && |keys| == |nodes| && bucket == Bucket(nodes, keys, fk)
    modifies nodes`edges
    ensures forall k | 0 <= k < |nodes| :: nodes[k].edges ==
              old(nodes[k].edges).(account := if keys[k] == Some(fk) then n else old(nodes[k].edges.account))
  {
    BucketIsByKey(nodes, keys, fk);
    for i := 0 to |bucket|
      invariant forall a | a in nodes ::
                  a.edges == old(a.edges).(account := if a in bucket[..i] then n else old(a.edges.account))
    {
      TakeNext(bucket, i);
      assert bucket[i] in bucket;
      bucket[i].edges := bucket[i].edges.(account := n);
    }
    TakeAll(bucket);
  }

  method BuildAccounts(rows: seq<AccountRow>, types: LoadedTypes) returns (built: seq<Account>)
    ensures AccountsAre(built, rows) && fresh(built) && Distinct(built)
    ensures forall a | a in built :: a.edges == AccountEdges([], null, [], [], types)
  {
    built := [];
    for i := 0 to |rows|
      invariant |built| == i && fresh(built) && forall k | 0 <= k < i :: built[k].scalars.row == rows[k]
      invariant Distinct(built) && forall a | a in built :: a.edges == AccountEdges([], null, [], [], types)
    {
      var n := new Account(types);
      n.scalars := Scanned(rows[i], map[]);
      built := built + [n];
    }
  }

  /** loadAccount: on success every join node holds the account of its key, or keeps none. It
      fails exactly when the query fails or returns an ID no node asked for; without nodes
      no query runs. */
  method LoadAccount(nodes: seq<AccountGroup>, query: Query<AccountRow>)
    returns (err: Option<LoadError>, ghost neighbors: seq<Account>)
    requires Distinct(nodes)
    requires forall a | a in nodes :: a.edges.account == null
    modifies nodes`edges
    ensures forall a | a in nodes :: a.edges == old(a.edges).(account := a.edges.account)
    ensures fresh(neighbors) && AccountEdgeOutcome(err, Some(query), nodes, neighbors)
  {
    var ids, nodeids := BucketByAccount(nodes);
    neighbors := [];
    if |ids| == 0 {
      if nodes != [] {
        PresentHas(AccountKeys(nodes), 0);
        DedupMembers(Present(AccountKeys(nodes)));
      }
      return None, [];
    }
    match query(ids)
    case Err(e) =>
      err := Some(QueryFailed(e));
    case Ok(rows) =>
      var built := BuildAccounts(rows, LoadedTypes(false, false, false, false));
      neighbors := built;
      err := AttachAccountEdges(nodes, AccountKeys(nodes), ids, nodeids, built, rows);
  }

  // How the account edge of the join nodes loads; withAccount is None when it was not requested.
  ghost predicate AccountEdgeOutcome(
    err: Option<LoadError>, withAccount: Option<Query<AccountRow>>, joins: seq<AccountGroup>, accounts: seq<Account>)
    reads joins`edges, accounts`scalars
  {
    if joins == [] || withAccount.None? then err == None && forall a | a in joins :: a.edges.account == null
    else match withAccount.value(Dedup(Present(AccountKeys(joins))))
         case Err(e) => err == Some(QueryFailed(e))
         case Ok(rows) => AccountOutcome(err, joins, Dedup(Present(AccountKeys(joins))), rows, accounts)
  }

  ghost predicate AccountOutcome(
    err: Option<LoadError>, nodes: seq<AccountGroup>, ids: seq<int>, rows: seq<AccountRow>, neighbors: seq<Account>)
    reads nodes`edges, neighbors`scalars
  {
    match Foreign(KeysOf(AccountKey, rows), ids)
    case None =>
      err == None && AccountsAre(neighbors, rows) && AccountEdgesAre(nodes, AccountKeys(nodes), rows, neighbors)
    case Some(id) => err == Some(UnexpectedNode(id))
  }

  // The loop over the neighbours, which come with whatever edges their own query loaded.
  method AttachAccountEdges(
    nodes: seq<AccountGroup>, ghost keys: seq<Option<int>>, ids: seq<int>, nodeids: map<int, seq<AccountGroup>>,
    built: seq<Account>, ghost rows: seq<AccountRow>)
    returns (err: Option<LoadError>)
    requires AccountsAre(built, rows)
    requires Distinct(nodes) && keys == AccountKeys(nodes) && Partitioned(ids, nodeids, nodes, keys)
    requires forall a | a in nodes :: a.edges.account == null
    modifies nodes`edges
    ensures forall a | a in nodes :: a.edges == old(a.edges).(account := a.edges.account)
    ensures AccountOutcome(err, nodes, ids, rows, built)
  {
    ghost var fks := KeysOf(AccountKey, rows);
    for i := 0 to |built|
      invariant Foreign(fks[..i], ids).None? && AccountsAre(built, rows)
      invariant forall k | 0 <= k < |nodes| :: nodes[k].edges ==
                  old(nodes[k].edges).(account := AccountFor(built[..i], rows[..i], keys[k]))
    {
      var n := built[i];
      var fk := n.Id();
      KnownKey(ids, nodeids, nodes, keys, fk);
      ForeignStep(fks, ids, i);
      if fk !in nodeids {
        return Some(UnexpectedNode(fk));
      }
      AssignAccountEdge(nodeids[fk], n, fk, nodes, keys);
      forall k | 0 <= k < |nodes| {
        AccountForStep(built, rows, i, keys[k]);
      }
    }
    TakeAll(built);
    TakeAll(rows);
    TakeAll(fks);
    err := None;
  }

  lemma AccountForStep(neighbors: seq<Account>, rows: seq<AccountRow>, i: nat, key: Option<int>)
    requires i < |neighbors| == |rows|
    ensures AccountFor(neighbors[..i + 1], rows[..i + 1], key) ==
            if key == Some(rows[i].counts.id) then neighbors[i] else AccountFor(neighbors[..i], rows[..i], key)
  {
    assert KeysOf(AccountKey, rows[..i + 1]) == KeysOf(AccountKey, rows[..i]) + [rows[i].counts.id];
    if key.Some? {
      LastIndexAppend(KeysOf(AccountKey, rows[..i]), rows[i].counts.id, key.value);
    }
  }
}
