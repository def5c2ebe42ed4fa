/** What the insert of a create spec leaves in the tables, and what the loaders then find for
    the new account. */
module AccountInsert {
  import opened Relations
  import opened AccountColumns
  import opened AccountScan
  import opened AccountCreate
  import opened Entities
  import opened Loading
  import opened LoadGroups
  import opened ManyToMany
  import opened TwoRoutes

  datatype Store = Store(accounts: map<int, Record>, tables: Tables, logs: seq<UsageLogRow>)

  // No row refers to an account that is not there yet.
  ghost predicate Unused(store: Store, id: int)
  {
    && id !in store.accounts
    && (forall j | j in store.tables.joins :: j.accountID != id)
    && forall l | l in store.logs :: l.accountID != id
  }

  function Moved(log: UsageLogRow, ids: set<int>, id: int): UsageLogRow
  {
    if log.id in ids then log.(accountID := id) else log
  }

  // The join rows of a group edge, for the groups in the given order.
  function JoinsFor(id: int, edge: GroupEdge, groups: seq<int>): (joins: seq<AccountGroupRow>)
    ensures |joins| == |groups|
    ensures forall k | 0 <= k < |groups| :: joins[k] == AccountGroupRow(id, groups[k], edge.priority, edge.createdAt)
  {
    seq(|groups|, k requires 0 <= k < |groups| => AccountGroupRow(id, groups[k], edge.priority, edge.createdAt))
  }

  /** The insert of a spec: the row under its ID, one join row with the fields of the edge for
      each group, in any order, and the foreign key of each log of the edge. */
  ghost predicate Inserted(before: Store, spec: AccountSpec, id: int, groups: seq<int>, after: Store)
  {
    && after.accounts == before.accounts[id := Stored(spec, id)]
    && after.tables.groups == before.tables.groups
    && Distinct(groups) && (forall g :: g in groups <==> spec.groups.Some? && g in spec.groups.value.ids)
    && after.tables.joins ==
       before.tables.joins + (if spec.groups.Some? then JoinsFor(id, spec.groups.value, groups) else [])
    && |after.logs| == |before.logs|
    && forall k | 0 <= k < |before.logs| :: after.logs[k] == Moved(before.logs[k], spec.usageLogs, id)
  }

  /** The account that was created belongs to exactly the groups set on the builder, with the
      defaults of the join entity, and has exactly the logs set on it. Other accounts keep
      their groups. */
  lemma {:induction false} CreatedRows(
    config: Config, m: AccountMutation, before: Store, id: int, groups: seq<int>, after: Store)
    requires Inserted(before, SpecOf(config, m), id, groups, after) && Unused(before, id)
    ensures forall j :: j in after.tables.joins && j.accountID == id <==>
              && j.groupID in m.groups
              && j == AccountGroupRow(id, j.groupID, config.joinPriority, config.joinCreatedAt)
    ensures forall l | l in after.logs :: l.accountID == id <==> l.id in m.usageLogs
    ensures forall a, g | a != id :: after.tables.Related(a, g) <==> before.tables.Related(a, g)
    ensures Read(after.accounts[id], Whole(ProxyID)) == Int64(m.proxy)
  {
    var spec := SpecOf(config, m);
    NodeHolds(config, m, Whole(ProxyID));
    forall j ensures j in after.tables.joins && j.accountID == id <==>
      j.groupID in m.groups && j == AccountGroupRow(id, j.groupID, config.joinPriority, config.joinCreatedAt)
    {
      if j.groupID in m.groups && j == AccountGroupRow(id, j.groupID, config.joinPriority, config.joinCreatedAt) {
        var k :| 0 <= k < |groups| && groups[k] == j.groupID;
        assert JoinsFor(id, spec.groups.value, groups)[k] == j;
      }
    }
    forall l | l in after.logs ensures l.accountID == id <==> l.id in m.usageLogs {
      var k :| 0 <= k < |after.logs| && after.logs[k] == l;
      assert before.logs[k] in before.logs;
    }
    forall j: AccountGroupRow | j.accountID != id ensures j in after.tables.joins <==> j in before.tables.joins {
    }
  }

  /** The insert keeps the primary keys of the tables. */
  lemma InsertKeepsKeys(before: Store, spec: AccountSpec, id: int, groups: seq<int>, after: Store)
    requires Inserted(before, spec, id, groups, after) && Unused(before, id) && before.tables.Valid()
    ensures after.tables.Valid()
  {
    var key := (j: AccountGroupRow) => (j.accountID, j.groupID);
    var past, all := before.tables.joins, after.tables.joins;
    forall x, y | 0 <= x < y < |all| ensures key(all[x]) != key(all[y]) {
      if y < |past| {
        assert key(past[x]) != key(past[y]);
      } else if x < |past| {
        assert past[x] in past;
      } else {
        assert groups[x - |past|] != groups[y - |past|];
      }
    }
    assert DistinctBy(before.tables.groups, (g: GroupRow) => g.id);
  }

  lemma {:induction false} SomeOrder(ids: set<int>) returns (groups: seq<int>)
    ensures Distinct(groups) && forall g :: g in groups <==> g in ids
    decreases ids
  {
    groups := [];
    if g :| g in ids {
      groups := SomeOrder(ids - {g});
      groups := groups + [g];
    }
  }

  // Whatever the spec, there is such an insert.
  lemma SomeInsert(before: Store, spec: AccountSpec, id: int) returns (groups: seq<int>, after: Store)
    ensures Inserted(before, spec, id, groups, after)
  {
    groups := SomeOrder(if spec.groups.Some? then spec.groups.value.ids else {});
    var joins := before.tables.joins + if spec.groups.Some? then JoinsFor(id, spec.groups.value, groups) else [];
    var logs := seq(|before.logs|, k requires 0 <= k < |before.logs| => Moved(before.logs[k], spec.usageLogs, id));
    after := Store(before.accounts[id := Stored(spec, id)], Tables(joins, before.tables.groups), logs);
  }

  // The foreign keys of the edges hold: the groups are there.
  ghost predicate GroupsExist(store: Store, ids: set<int>)
  {
    forall g | g in ids :: exists r | r in store.tables.groups :: r.id == g
  }

  /** Create, then load: whatever order the join is answered in, loadGroups leaves on the new
      account exactly the groups set on the builder, each once. */
  lemma {:induction false} CreateThenLoadGroups(
    config: Config, m: AccountMutation, before: Store, id: int, groups: seq<int>, after: Store,
    nodes: seq<Account>, ids: seq<int>, i: nat, rows: seq<JoinRow>, shared: seq<Group>)
    requires Inserted(before, SpecOf(config, m), id, groups, after) && Unused(before, id)
    requires before.tables.Valid() && GroupsExist(before, m.groups)
    requires |ids| == |nodes| && i < |nodes| && ids[i] == id && Owner(ids, i)
    requires JoinAnswer(after.tables, ids, rows) && GroupsAttached(nodes, ids, rows, shared)
    ensures Distinct(RowsOf(nodes[i].edges.groups))
    ensures forall r :: r in RowsOf(nodes[i].edges.groups) <==> r in before.tables.groups && r.id in m.groups
    ensures forall g | g in m.groups :: exists r | r in RowsOf(nodes[i].edges.groups) :: r.id == g
  {
    CreatedRows(config, m, before, id, groups, after);
    InsertKeepsKeys(before, SpecOf(config, m), id, groups, after);
    HeldRows(rows, id, shared, FirstSeen(rows));
    assert RowsOf(nodes[i].edges.groups) == GroupsOf(rows, id);
    GroupsOfDistinct(rows, id);
    forall r ensures r in GroupsOf(rows, id) <==> r in before.tables.groups && r.id in m.groups {
      JoinedIsRelated(after.tables, ids, rows, id, r);
      var j := AccountGroupRow(id, r.id, config.joinPriority, config.joinCreatedAt);
      assert j in after.tables.joins <==> r.id in m.groups;
    }
  }
}
