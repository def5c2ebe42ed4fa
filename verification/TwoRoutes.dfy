/** From an account to its groups there are two routes: the many-to-many loader, and the
    join rows followed by the group edge of each. On one store snapshot they agree. */
module TwoRoutes {
  import opened Wrappers
  import opened Relations
  import opened Entities
  import opened Loading
  import opened Projection
  import opened AccountGroupScan
  import opened LoadGroups
  import opened ManyToMany
  import opened LoadGroupEdge
  import opened JoinQuery
  import opened LoadAccountGroups

  // A snapshot of the two tables, with their primary keys.
  datatype Tables = Tables(joins: seq<AccountGroupRow>, groups: seq<GroupRow>) {

    ghost predicate Valid()
    {
      && DistinctBy(joins, (j: AccountGroupRow) => (j.accountID, j.groupID))
      && DistinctBy(groups, (g: GroupRow) => g.id)
    }

    // Row g is a group of account a, by the tables alone.
    ghost predicate Related(a: int, g: GroupRow)
    {
      g in groups && exists j | j in joins :: j.accountID == a && j.groupID == g.id
    }
  }

  /** The three answers a store may give, in any order. The join query selects the pairs
      of a join row and its group whose account is wanted, and may repeat them. */
  ghost predicate JoinAnswer(store: Tables, ids: seq<int>, rows: seq<JoinRow>)
  {
    forall r :: r in rows <==> r.accountID in ids && store.Related(r.accountID, r.group)
  }

  ghost predicate JoinRowsAnswer(store: Tables, ids: seq<int>, rows: seq<AccountGroupRow>)
  {
    multiset(rows) == multiset(Select((j: AccountGroupRow) => j.accountID in ids, store.joins))
  }

  ghost predicate GroupsAnswer(store: Tables, ids: seq<int>, rows: seq<GroupRow>)
  {
    multiset(rows) == multiset(Select((g: GroupRow) => g.id in ids, store.groups))
  }

  function RowsOf(groups: seq<Group>): (rows: seq<GroupRow>)
    ensures |rows| == |groups| && forall k | 0 <= k < |rows| :: rows[k] == groups[k].row
  {
    seq(|groups|, i requires 0 <= i < |groups| => groups[i].row)
  }

  // The groups the join nodes of an account lead to; a node whose group was not found leads nowhere.
  function GroupsVia(joins: seq<AccountGroup>): seq<Group>
    reads joins`edges
  {
    if joins == [] then []
    else
      var last := joins[|joins| - 1].edges.group;
      if last == null then GroupsVia(joins[..|joins| - 1]) else GroupsVia(joins[..|joins| - 1]) + [last]
  }

  // The second route over table rows.
  function Reached(joins: seq<AccountGroupRow>, groups: seq<GroupRow>, a: int): seq<GroupRow>
  {
    if joins == [] then []
    else
      var init, last := Reached(joins[..|joins| - 1], groups, a), joins[|joins| - 1];
      var g := Lookup(groups, last.groupID);
      if last.accountID == a && g.Some? then init + [g.value] else init
  }

  lemma {:induction false} LookupFinds(groups: seq<GroupRow>, id: int)
    ensures Lookup(groups, id).Some? ==> Lookup(groups, id).value in groups && Lookup(groups, id).value.id == id
    ensures Lookup(groups, id).None? ==> forall g | g in groups :: g.id != id
  {
    if groups == [] {
    } else {
      LookupFinds(groups[..|groups| - 1], id);
      assert groups == groups[..|groups| - 1] + [groups[|groups| - 1]];
    }
  }

  // Following the loaded edges computes the second route.
  lemma {:induction false} ViaIsReached(
    joins: seq<AccountGroup>, rows: seq<AccountGroupRow>, columns: seq<JoinColumn>, neighbors: seq<Group>,
    groups: seq<GroupRow>, a: int)
    requires JoinAccountID in columns && JoinGroupID in columns
    requires |joins| == |rows| && forall k | 0 <= k < |rows| :: joins[k].row == ProjectJoin(rows[k], columns)
    requires forall k | 0 <= k < |joins| :: joins[k].edges.group == GroupFor(neighbors, Some(joins[k].row.groupID))
    requires RowsAre(neighbors, groups)
    ensures RowsOf(GroupsVia(JoinsOf(joins, a))) == Reached(rows, groups, a)
  {
    if joins == [] {
    } else {
      var n := |joins| - 1;
      ViaIsReached(joins[..n], rows[..n], columns, neighbors, groups, a);
      GroupForIsLookup(neighbors, groups, rows[n].groupID);
      var init := JoinsOf(joins[..n], a);
      assert joins == joins[..n] + [joins[n]];
      ChildrenOfAppend(JoinKey, a, joins[..n], joins[n]);
      if joins[n].row.accountID == a {
        assert JoinsOf(joins, a) == init + [joins[n]];
        assert (init + [joins[n]])[..|init|] == init;
      } else {
        assert JoinsOf(joins, a) == init;
      }
    }
  }

  lemma {:induction false} ReachedMembers(joins: seq<AccountGroupRow>, groups: seq<GroupRow>, a: int, g: GroupRow)
    ensures g in Reached(joins, groups, a) <==>
            exists j | j in joins :: j.accountID == a && Lookup(groups, j.groupID) == Some(g)
  {
    if joins == [] {
    } else {
      ReachedMembers(joins[..|joins| - 1], groups, a, g);
      assert joins == joins[..|joins| - 1] + [joins[|joins| - 1]];
    }
  }

  lemma {:induction false} ReachedDistinct(joins: seq<AccountGroupRow>, groups: seq<GroupRow>, a: int)
    requires DistinctBy(joins, (j: AccountGroupRow) => (j.accountID, j.groupID))
    ensures Distinct(Reached(joins, groups, a))
  {
    if joins == [] {
    } else {
      var init, last := joins[..|joins| - 1], joins[|joins| - 1];
      ReachedDistinct(init, groups, a);
      var g := Lookup(groups, last.groupID);
      if last.accountID == a && g.Some? {
        ReachedMembers(init, groups, a, g.value);
        LookupFinds(groups, last.groupID);
        forall j | j in init && j.accountID == a ensures Lookup(groups, j.groupID) != g {
          LookupFinds(groups, j.groupID);
          var i :| 0 <= i < |init| && init[i] == j;
          assert joins[i] == j && joins[|joins| - 1] == last;
        }
      }
    }
  }

  // The wanted join rows, in whatever order they came back.
  lemma JoinRowsFacts(store: Tables, ids: seq<int>, rows: seq<AccountGroupRow>)
    requires store.Valid() && JoinRowsAnswer(store, ids, rows)
    ensures DistinctBy(rows, (j: AccountGroupRow) => (j.accountID, j.groupID))
    ensures forall j :: j in rows <==> j in store.joins && j.accountID in ids
  {
    var wanted := (j: AccountGroupRow) => j.accountID in ids;
    SelectMembers(wanted, store.joins);
    SelectDistinctBy(wanted, store.joins, (j: AccountGroupRow) => (j.accountID, j.groupID));
    DistinctByPermutation(Select(wanted, store.joins), rows, (j: AccountGroupRow) => (j.accountID, j.groupID));
    forall j ensures j in rows <==> j in Select(wanted, store.joins) {
      assert j in rows <==> j in multiset(rows);
    }
  }

  // Looking up a wanted key finds the table's group of that ID, if there is one.
  lemma LookupInTable(store: Tables, keys: seq<int>, rows: seq<GroupRow>, id: int, g: GroupRow)
    requires store.Valid() && GroupsAnswer(store, keys, rows) && id in keys
    ensures Lookup(rows, id) == Some(g) <==> g in store.groups && g.id == id
  {
    var wanted := (h: GroupRow) => h.id in keys;
    SelectMembers(wanted, store.groups);
    forall h ensures h in rows <==> h in store.groups && h.id in keys {
      assert h in rows <==> h in multiset(rows);
    }
    LookupFinds(rows, id);
    if g in store.groups && g.id == id {
      var h := Lookup(rows, id).value;
      var a :| 0 <= a < |store.groups| && store.groups[a] == g;
      var b :| 0 <= b < |store.groups| && store.groups[b] == h;
      var key := (k: GroupRow) => k.id;
      assert key(store.groups[a]) == key(store.groups[b]);
    }
  }

  // The second route reaches exactly the related groups.
  lemma ReachedIsRelated(
    store: Tables, ids: seq<int>, keys: seq<int>, joins: seq<AccountGroupRow>, groups: seq<GroupRow>, a: int,
    g: GroupRow)
    requires store.Valid() && JoinRowsAnswer(store, ids, joins) && GroupsAnswer(store, keys, groups)
    requires forall j | j in joins :: j.groupID in keys
    requires a in ids
    ensures g in Reached(joins, groups, a) <==> store.Related(a, g)
  {
    JoinRowsFacts(store, ids, joins);
    ReachedMembers(joins, groups, a, g);
    forall j | j in joins ensures Lookup(groups, j.groupID) == Some(g) <==> g in store.groups && g.id == j.groupID {
      LookupInTable(store, keys, groups, j.groupID, g);
    }
  }

  // The first route lists rows of the group table.
  lemma ListedIsStored(store: Tables, ids: seq<int>, rows: seq<JoinRow>, a: int, g: GroupRow)
    requires JoinAnswer(store, ids, rows) && g in GroupsOf(rows, a)
    ensures g in store.groups
  {
    GroupsOfInOrder(rows, a);
    assert rows[FirstRow(rows, g.id)] in rows;
  }

  lemma JoinedThenRelated(store: Tables, ids: seq<int>, rows: seq<JoinRow>, a: int, g: GroupRow)
    requires store.Valid() && JoinAnswer(store, ids, rows) && g in GroupsOf(rows, a)
    ensures store.Related(a, g)
  {
    ListedIsStored(store, ids, rows, a, g);
    GroupsOfAreJoined(rows, a, g.id);
    assert Lists(GroupsOf(rows, a), g.id);
    var r :| r in rows && r.accountID == a && r.group.id == g.id;
    SameID(store, g, r.group);
  }

  lemma RelatedThenJoined(store: Tables, ids: seq<int>, rows: seq<JoinRow>, a: int, g: GroupRow)
    requires store.Valid() && JoinAnswer(store, ids, rows) && a in ids && store.Related(a, g)
    ensures g in GroupsOf(rows, a)
  {
    assert JoinRow(a, g) in rows;
    GroupsOfAreJoined(rows, a, g.id);
    var h :| h in GroupsOf(rows, a) && h.id == g.id;
    ListedIsStored(store, ids, rows, a, h);
    SameID(store, g, h);
  }

  // The first route lists exactly the related groups.
  lemma JoinedIsRelated(store: Tables, ids: seq<int>, rows: seq<JoinRow>, a: int, g: GroupRow)
    requires store.Valid() && JoinAnswer(store, ids, rows) && a in ids
    ensures g in GroupsOf(rows, a) <==> store.Related(a, g)
  {
    if g in GroupsOf(rows, a) {
      JoinedThenRelated(store, ids, rows, a, g);
    }
    if store.Related(a, g) {
      RelatedThenJoined(store, ids, rows, a, g);
    }
  }

  lemma SameID(store: Tables, g: GroupRow, h: GroupRow)
    requires store.Valid() && g in store.groups && h in store.groups && g.id == h.id
    ensures g == h
  {
    var a :| 0 <= a < |store.groups| && store.groups[a] == g;
    var b :| 0 <= b < |store.groups| && store.groups[b] == h;
    var key := (k: GroupRow) => k.id;
    assert key(store.groups[a]) == key(store.groups[b]);
  }

  lemma GroupsOfDistinct(rows: seq<JoinRow>, a: int)
    ensures Distinct(GroupsOf(rows, a))
  {
    GroupsOfInOrder(rows, a);
    forall i, j | 0 <= i < j < |GroupsOf(rows, a)| ensures GroupsOf(rows, a)[i] != GroupsOf(rows, a)[j] {
      assert Before(rows, GroupsOf(rows, a)[i], GroupsOf(rows, a)[j]);
    }
  }

  // The two routes over table rows list the same groups.
  lemma {:induction false} RoutesOverTables(
    store: Tables, ids: seq<int>, keys: seq<int>, rows: seq<JoinRow>, joinRows: seq<AccountGroupRow>,
    groupRows: seq<GroupRow>, a: int)
    requires store.Valid() && a in ids
    requires JoinAnswer(store, ids, rows) && JoinRowsAnswer(store, ids, joinRows)
    requires GroupsAnswer(store, keys, groupRows)
    requires forall j | j in joinRows :: j.groupID in keys
    ensures multiset(GroupsOf(rows, a)) == multiset(Reached(joinRows, groupRows, a))
    ensures Distinct(GroupsOf(rows, a))
    ensures forall g :: g in GroupsOf(rows, a) <==> store.Related(a, g)
  {
    GroupsOfDistinct(rows, a);
    JoinRowsFacts(store, ids, joinRows);
    ReachedDistinct(joinRows, groupRows, a);
    forall g ensures g in GroupsOf(rows, a) <==> store.Related(a, g)
             ensures g in Reached(joinRows, groupRows, a) <==> store.Related(a, g)
    {
      JoinedIsRelated(store, ids, rows, a, g);
      ReachedIsRelated(store, ids, keys, joinRows, groupRows, a, g);
    }
    DistinctSameElements(GroupsOf(rows, a), Reached(joinRows, groupRows, a));
  }

  /** The two routes agree on the loaded objects. Take what loadGroups and
      loadAccountGroups leave on the same accounts after both queries were answered from one
      snapshot, in any order and under any selection of fields. For every account the
      groups of the first route are those reached through the second, each exactly once. */
  lemma {:induction false} TwoRoutesAgree(
    store: Tables, nodes: seq<Account>, ids: seq<int>, i: nat,
    rows: seq<JoinRow>, shared: seq<Group>,
    query: AccountGroupQuery, joinRows: seq<AccountGroupRow>, loaded: LoadedJoins, groupRows: seq<GroupRow>)
    requires store.Valid() && |ids| == |nodes| && i < |nodes|
    requires JoinAnswer(store, ids, rows) && GroupsAttached(nodes, ids, rows, shared)
    requires JoinRowsAnswer(store, ids, joinRows) && JoinsLoaded(None, nodes, ids, query, Ok(joinRows), loaded)
    requires query.withGroup.Some? && query.withGroup.value(Dedup(Present(GroupKeys(loaded.joins)))) == Ok(groupRows)
    requires GroupsAnswer(store, Dedup(Present(GroupKeys(loaded.joins))), groupRows)
    ensures multiset(RowsOf(nodes[i].edges.groups)) == multiset(RowsOf(GroupsVia(nodes[i].edges.accountGroups)))
    ensures Distinct(RowsOf(nodes[i].edges.groups))
    ensures Owner(ids, i) ==> forall g :: g in RowsOf(nodes[i].edges.groups) <==> store.Related(ids[i], g)
  {
    if Owner(ids, i) {
      HeldRows(rows, ids[i], shared, FirstSeen(rows));
      assert RowsOf(nodes[i].edges.groups) == GroupsOf(rows, ids[i]);
      KeysCovered(loaded.joins, joinRows, loaded.columns);
      SecondRoute(store, nodes, ids, i, query, joinRows, loaded, groupRows);
      RoutesOverTables(store, ids, Dedup(Present(GroupKeys(loaded.joins))), rows, joinRows, groupRows, ids[i]);
    }
  }

  lemma KeysCovered(joins: seq<AccountGroup>, rows: seq<AccountGroupRow>, columns: seq<JoinColumn>)
    requires NodesScanned(joins, rows, columns) && JoinGroupID in columns
    ensures forall j | j in rows :: j.groupID in Dedup(Present(GroupKeys(joins)))
  {
    DedupMembers(Present(GroupKeys(joins)));
    forall k | 0 <= k < |rows| ensures rows[k].groupID in Present(GroupKeys(joins)) {
      PresentHas(GroupKeys(joins), k);
    }
  }

  lemma SecondRoute(
    store: Tables, nodes: seq<Account>, ids: seq<int>, i: nat,
    query: AccountGroupQuery, joinRows: seq<AccountGroupRow>, loaded: LoadedJoins, groupRows: seq<GroupRow>)
    requires |ids| == |nodes| && i < |nodes| && Owner(ids, i)
    requires JoinsLoaded(None, nodes, ids, query, Ok(joinRows), loaded)
    requires query.withGroup.Some? && query.withGroup.value(Dedup(Present(GroupKeys(loaded.joins)))) == Ok(groupRows)
    ensures RowsOf(GroupsVia(nodes[i].edges.accountGroups)) == Reached(joinRows, groupRows, ids[i])
  {
    LoadedFacts(nodes, ids, i, query, joinRows, loaded);
    if loaded.joins != [] {
      GroupsHeldBelow(query.withGroup.value, loaded.joins, loaded.groups, groupRows);
      ViaIsReached(loaded.joins, joinRows, loaded.columns, loaded.groups, groupRows, ids[i]);
    }
  }

  lemma LoadedFacts(
    nodes: seq<Account>, ids: seq<int>, i: nat, query: AccountGroupQuery, joinRows: seq<AccountGroupRow>,
    loaded: LoadedJoins)
    requires |ids| == |nodes| && i < |nodes| && Owner(ids, i) && query.withGroup.Some?
    requires JoinsLoaded(None, nodes, ids, query, Ok(joinRows), loaded)
    ensures JoinAccountID in loaded.columns && JoinGroupID in loaded.columns
    ensures NodesScanned(loaded.joins, joinRows, loaded.columns)
    ensures GroupEdgeOutcome(None, query.withGroup, loaded.joins, loaded.groups)
    ensures nodes[i].edges.accountGroups == JoinsOf(loaded.joins, ids[i])
  {
  }

  lemma GroupsHeldBelow(
    query: Query<GroupRow>, joins: seq<AccountGroup>, groups: seq<Group>, groupRows: seq<GroupRow>)
    requires joins != [] && query(Dedup(Present(GroupKeys(joins)))) == Ok(groupRows)
    requires GroupEdgeOutcome(None, Some(query), joins, groups)
    ensures RowsAre(groups, groupRows)
    ensures forall k | 0 <= k < |joins| :: joins[k].edges.group == GroupFor(groups, Some(joins[k].row.groupID))
  {
  }

  // Answered from one snapshot, both loaders succeed unless the account edge of the join
  // nodes was requested and fails.
  lemma JoinsSucceed(
    store: Tables, nodes: seq<Account>, ids: seq<int>, err: Option<LoadError>,
    query: AccountGroupQuery, joinRows: seq<AccountGroupRow>, loaded: LoadedJoins)
    requires store.Valid() && |ids| == |nodes|
    requires JoinRowsAnswer(store, ids, joinRows) && JoinsLoaded(err, nodes, ids, query, Ok(joinRows), loaded)
    requires query.withAccount.None? && query.withGroup.Some? && AnswersGroups(store, query.withGroup.value)
    ensures err == None
  {
    JoinRowsFacts(store, ids, joinRows);
    forall k | 0 <= k < |joinRows| ensures KeysOf(JoinParent, joinRows)[k] in ids {
      assert joinRows[k] in joinRows;
    }
    ForeignIsFirst(KeysOf(JoinParent, joinRows), ids);
    var keys := Dedup(Present(GroupKeys(loaded.joins)));
    var rows := query.withGroup.value(keys).value;
    AnsweredGroups(store, keys, rows);
    ForeignIsFirst(KeysOf(GroupKey, rows), keys);
  }

  lemma AnsweredGroups(store: Tables, keys: seq<int>, rows: seq<GroupRow>)
    requires GroupsAnswer(store, keys, rows)
    ensures forall k | 0 <= k < |rows| :: KeysOf(GroupKey, rows)[k] in keys
  {
    SelectMembers((g: GroupRow) => g.id in keys, store.groups);
    forall k | 0 <= k < |rows| ensures rows[k].id in keys {
      assert rows[k] in multiset(rows);
    }
  }

  // The group table answers every list of keys.
  ghost predicate AnswersGroups(store: Tables, query: Query<GroupRow>)
  {
    forall keys :: query(keys).Ok? && GroupsAnswer(store, keys, query(keys).value)
  }

  // The groups of a node are those its join nodes lead to, each once, and those related to it.
  ghost predicate RoutesAgree(store: Tables, node: Account, id: int, owner: bool)
    reads node`edges, node.edges.accountGroups`edges
  {
    && multiset(RowsOf(node.edges.groups)) == multiset(RowsOf(GroupsVia(node.edges.accountGroups)))
    && Distinct(RowsOf(node.edges.groups))
    && (owner ==> forall g :: g in RowsOf(node.edges.groups) <==> store.Related(id, g))
  }

  /** Both loaders on the same accounts, answered from one snapshot in any order and under any
      selected fields: both succeed, and the groups of each account are those reached through
      its join nodes, each exactly once, and the groups the tables relate it to. */
  method BothRoutes(
    nodes: seq<Account>, groups: Query<JoinRow>, joins: AccountGroupQuery, ghost store: Tables,
    ghost rows: seq<JoinRow>, ghost joinRows: seq<AccountGroupRow>)
    returns (groupsErr: Option<LoadError>, joinsErr: Option<LoadError>)
    requires Distinct(nodes) && store.Valid() && joins.withGroup.Some? && joins.withAccount.None?
    requires groups(IDsOf(nodes)) == Ok(rows) && JoinAnswer(store, IDsOf(nodes), rows)
    requires joins.run(IDsOf(nodes)) == Ok(joinRows) && JoinRowsAnswer(store, IDsOf(nodes), joinRows)
    requires AnswersGroups(store, joins.withGroup.value)
    modifies nodes`edges
    ensures groupsErr == None && joinsErr == None
    ensures forall i | 0 <= i < |nodes| :: RoutesAgree(store, nodes[i], IDsOf(nodes)[i], Owner(IDsOf(nodes), i))
  {
    ghost var ids := IDsOf(nodes);
    ghost var shared, loaded;
    groupsErr, joinsErr, shared, loaded := RunRoutes(nodes, groups, joins, ids, rows, joinRows);
    JoinsSucceed(store, nodes, ids, joinsErr, joins, joinRows, loaded);
    EveryNodeAgrees(store, nodes, ids, rows, shared, joins, joinRows, loaded);
  }

  // The two loaders, one after the other: the second leaves what the first attached.
  method RunRoutes(
    nodes: seq<Account>, groups: Query<JoinRow>, joins: AccountGroupQuery, ghost ids: seq<int>,
    ghost rows: seq<JoinRow>, ghost joinRows: seq<AccountGroupRow>)
    returns (groupsErr: Option<LoadError>, joinsErr: Option<LoadError>, ghost shared: seq<Group>,
      ghost loaded: LoadedJoins)
    requires Distinct(nodes) && ids == IDsOf(nodes)
    requires groups(ids) == Ok(rows) && RowsNameParents(rows, ids) && joins.run(ids) == Ok(joinRows)
    modifies nodes`edges
    ensures ids == IDsOf(nodes) && groupsErr == None && GroupsAttached(nodes, ids, rows, shared)
    ensures JoinsLoaded(joinsErr, nodes, ids, joins, Ok(joinRows), loaded)
  {
    groupsErr, shared := LoadGroups.LoadGroups(nodes, groups);
    joinsErr, loaded := LoadAccountGroups.LoadAccountGroups(nodes, joins);
  }

  lemma {:induction false} EveryNodeAgrees(
    store: Tables, nodes: seq<Account>, ids: seq<int>, rows: seq<JoinRow>, shared: seq<Group>,
    query: AccountGroupQuery, joinRows: seq<AccountGroupRow>, loaded: LoadedJoins)
    requires store.Valid() && |ids| == |nodes|
    requires JoinAnswer(store, ids, rows) && GroupsAttached(nodes, ids, rows, shared)
    requires JoinRowsAnswer(store, ids, joinRows) && JoinsLoaded(None, nodes, ids, query, Ok(joinRows), loaded)
    requires query.withGroup.Some? && AnswersGroups(store, query.withGroup.value)
    ensures forall i | 0 <= i < |nodes| :: RoutesAgree(store, nodes[i], ids[i], Owner(ids, i))
  {
    var keys := Dedup(Present(GroupKeys(loaded.joins)));
    forall i | 0 <= i < |nodes| ensures RoutesAgree(store, nodes[i], ids[i], Owner(ids, i)) {
      TwoRoutesAgree(store, nodes, ids, i, rows, shared, query, joinRows, loaded, query.withGroup.value(keys).value);
    }
  }
}
