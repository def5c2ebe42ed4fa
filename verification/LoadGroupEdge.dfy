/** The many-to-one loader of the join entity's groups: AccountGroupQuery.loadGroup. */
module LoadGroupEdge {
  import opened Wrappers
  import opened Relations
  import opened Entities
  import opened Loading

  function GroupKeys(nodes: seq<AccountGroup>): (keys: seq<Option<int>>)
    ensures |keys| == |nodes|
    ensures forall k | 0 <= k < |nodes| :: keys[k] == Some(nodes[k].row.groupID)
  {
    seq(|nodes|, i requires 0 <= i < |nodes| => Some(nodes[i].row.groupID))
  }

  // The group a key ends up with: the last neighbour of that ID.
  function GroupFor(neighbors: seq<Group>, key: Option<int>): Group?
  {
    if neighbors == [] || key.None? then null
    else
      var last := neighbors[|neighbors| - 1];
      if last.row.id == key.value then last else GroupFor(neighbors[..|neighbors| - 1], key)
  }

  function IDOfGroup(n: Group): int
  {
    n.row.id
  }

  /** A join node ends without a group exactly when none of its key came back; with distinct
      neighbours it holds the one of its key. */
  lemma {:induction false} GroupForIsTheMatch(neighbors: seq<Group>, key: int)
    ensures GroupFor(neighbors, Some(key)) == null <==> forall n | n in neighbors :: n.row.id != key
    ensures var g := GroupFor(neighbors, Some(key)); g != null ==> g in neighbors && g.row.id == key
    ensures DistinctBy(neighbors, IDOfGroup) ==>
              forall n | n in neighbors && n.row.id == key :: GroupFor(neighbors, Some(key)) == n
  {
    if neighbors == [] {
    } else {
      var init, last := neighbors[..|neighbors| - 1], neighbors[|neighbors| - 1];
      assert neighbors == init + [last];
      GroupForIsTheMatch(init, key);
      if DistinctBy(neighbors, IDOfGroup) {
        forall n | n in init ensures n.row.id != last.row.id {
          var i :| 0 <= i < |init| && init[i] == n;
          assert neighbors[i] == n && neighbors[|neighbors| - 1] == last;
        }
      }
    }
  }

  // The last row of an ID.
  function Lookup(groups: seq<GroupRow>, id: int): Option<GroupRow>
  {
    if groups == [] then None
    else if groups[|groups| - 1].id == id then Some(groups[|groups| - 1])
    else Lookup(groups[..|groups| - 1], id)
  }

  lemma {:induction false} GroupForIsLookup(neighbors: seq<Group>, rows: seq<GroupRow>, id: int)
    requires RowsAre(neighbors, rows)
    ensures GroupFor(neighbors, Some(id)) == null <==> Lookup(rows, id).None?
    ensures GroupFor(neighbors, Some(id)) != null ==> Lookup(rows, id) == Some(GroupFor(neighbors, Some(id)).row)
  {
    if rows == [] {
    } else {
      GroupForIsLookup(neighbors[..|rows| - 1], rows[..|rows| - 1], id);
    }
  }

  function GroupKey(r: GroupRow): int
  {
    r.id
  }

  ghost predicate GroupEdgesAre(nodes: seq<AccountGroup>, keys: seq<Option<int>>, neighbors: seq<Group>)
    requires |keys| == |nodes|
    reads nodes`edges
  {
    forall k | 0 <= k < |nodes| :: nodes[k].edges.group == GroupFor(neighbors, keys[k])
  }

  method BucketByGroup(nodes: seq<AccountGroup>) returns (ids: seq<int>, nodeids: map<int, seq<AccountGroup>>)
    ensures Partitioned(ids, nodeids, nodes, GroupKeys(nodes))
  {
    ids, nodeids := [], map[];
    ghost var keys := GroupKeys(nodes);
    for i := 0 to |nodes|
      invariant Partitioned(ids, nodeids, nodes[..i], keys[..i])
    {
      TakeNext(keys, i);
      TakeNext(nodes, i);
      var fk := nodes[i].row.groupID;
      PartitionStep(ids, nodeids, nodes[..i], keys[..i], nodes[i], fk);
      if fk !in nodeids {
        ids := ids + [fk];
      }
      nodeids := nodeids[fk := if fk in nodeids then nodeids[fk] + [nodes[i]] else [nodes[i]]];
    }
    TakeAll(keys);
    TakeAll(nodes);
  }

  method AssignGroupEdge(
    bucket: seq<AccountGroup>, n: Group, ghost nodes: seq<AccountGroup>, ghost keys: seq<Option<int>>)
    requires Distinct(nodes) && |keys| == |nodes| && bucket == Bucket(nodes, keys, n.row.id)
    modifies nodes`edges
    ensures forall k | 0 <= k < |nodes| :: nodes[k].edges ==
              old(nodes[k].edges).(group := if keys[k] == Some(n.row.id) then n else old(nodes[k].edges.group))
  {
    BucketIsByKey(nodes, keys, n.row.id);
    for i := 0 to |bucket|
      invariant forall a | a in nodes ::
                  a.edges == old(a.edges).(group := if a in bucket[..i] then n else old(a.edges.group))
    {
      TakeNext(bucket, i);
      assert bucket[i] in bucket;
      bucket[i].edges := bucket[i].edges.(group := n);
    }
    TakeAll(bucket);
  }

  method BuildGroups(rows: seq<GroupRow>) returns (built: seq<Group>)
    ensures RowsAre(built, rows)
  {
    built := [];
    for i := 0 to |rows|
      invariant |built| == i && forall k | 0 <= k < i :: built[k].row == rows[k]
    {
      var n := new Group(rows[i]);
      built := built + [n];
    }
  }

  /** loadGroup: on success every join node holds the group of its key, or keeps none. It
      fails exactly when the query fails or returns an ID no node asked for; without nodes
      no query runs. */
  method LoadGroup(nodes: seq<AccountGroup>, query: Query<GroupRow>)
    returns (err: Option<LoadError>, ghost neighbors: seq<Group>)
    requires Distinct(nodes)
    requires forall a | a in nodes :: a.edges.group == null
    modifies nodes`edges
    ensures forall a | a in nodes :: a.edges == old(a.edges).(group := a.edges.group)
    ensures GroupEdgeOutcome(err, Some(query), nodes, neighbors)
  {
    var ids, nodeids := BucketByGroup(nodes);
    if |ids| == 0 {
      if nodes != [] {
        PresentHas(GroupKeys(nodes), 0);
        DedupMembers(Present(GroupKeys(nodes)));
      }
      return None, [];
    }
    match query(ids)
    case Err(e) =>
      err, neighbors := Some(QueryFailed(e)), [];
    case Ok(rows) =>
      err, neighbors := AttachGroupEdges(nodes, GroupKeys(nodes), ids, nodeids, rows);
  }

  ghost predicate EdgeOutcome(
    err: Option<LoadError>, nodes: seq<AccountGroup>, ids: seq<int>, rows: seq<GroupRow>, neighbors: seq<Group>)
    reads nodes`edges
  {
    match Foreign(KeysOf(GroupKey, rows), ids)
    case None => err == None && RowsAre(neighbors, rows) && GroupEdgesAre(nodes, GroupKeys(nodes), neighbors)
    case Some(id) => err == Some(UnexpectedNode(id))
  }

  method AttachGroupEdges(
    nodes: seq<AccountGroup>, ghost keys: seq<Option<int>>, ids: seq<int>, nodeids: map<int, seq<AccountGroup>>,
    rows: seq<GroupRow>)
    returns (err: Option<LoadError>, ghost neighbors: seq<Group>)
    requires Distinct(nodes) && keys == GroupKeys(nodes) && Partitioned(ids, nodeids, nodes, keys)
    requires forall a | a in nodes :: a.edges.group == null
    modifies nodes`edges
    ensures forall a | a in nodes :: a.edges == old(a.edges).(group := a.edges.group)
    ensures EdgeOutcome(err, nodes, ids, rows, neighbors)
  {
    var built := BuildGroups(rows);
    neighbors := built;
    ghost var fks := KeysOf(GroupKey, rows);
    for i := 0 to |built|
      invariant Foreign(fks[..i], ids).None?
      invariant forall k | 0 <= k < |nodes| ::
                  nodes[k].edges == old(nodes[k].edges).(group := GroupFor(built[..i], keys[k]))
    {
      var n := built[i];
      KnownKey(ids, nodeids, nodes, keys, n.row.id);
      ForeignStep(fks, ids, i);
      if n.row.id !in nodeids {
        return Some(UnexpectedNode(n.row.id)), neighbors;
      }
      assert built[..i + 1][..i] == built[..i];
      AssignGroupEdge(nodeids[n.row.id], n, nodes, keys);
    }
    TakeAll(built);
    TakeAll(fks);
    err := None;
  }

  // How the group edge of the join nodes loads; withGroup is None when it was not requested.
  ghost predicate GroupEdgeOutcome(
    err: Option<LoadError>, withGroup: Option<Query<GroupRow>>, joins: seq<AccountGroup>, groups: seq<Group>)
    reads joins`edges
  {
    if joins == [] || withGroup.None? then err == None && forall a | a in joins :: a.edges.group == null
    else match withGroup.value(Dedup(Present(GroupKeys(joins))))
         case Err(e) => err == Some(QueryFailed(e))
         case Ok(rows) => EdgeOutcome(err, joins, Dedup(Present(GroupKeys(joins))), rows, groups)
  }
}
