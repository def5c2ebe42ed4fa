/** The many-to-many loader of the account query: joined rows are streamed through the
    patched Assign closure, deduplicated into shared Group objects, and then handed to
    the accounts that hold them. */
module LoadGroups {
  import opened Wrappers
  import opened Relations
  import opened Entities
  import opened Loading

  // One row of groups JOIN account_groups: the account_id column put in front, then
  // the columns of the group.
  datatype JoinRow = JoinRow(accountID: int, group: GroupRow)

  predicate HasGroup(rows: seq<JoinRow>, groupID: int)
  {
    exists r | r in rows :: r.group.id == groupID
  }

  predicate Lists(groups: seq<GroupRow>, g: int)
  {
    exists h | h in groups :: h.id == g
  }

  predicate Joined(rows: seq<JoinRow>, accountID: int, groupID: int)
  {
    exists r | r in rows :: r.accountID == accountID && r.group.id == groupID
  }

  // The groups of the rows, each once, in order of first appearance.
  function FirstSeen(rows: seq<JoinRow>): seq<GroupRow>
  {
    if rows == [] then []
    else
      var before, last := rows[..|rows| - 1], rows[|rows| - 1];
      FirstSeen(before) + if HasGroup(before, last.group.id) then [] else [last.group]
  }

  // The relational join this loader replaces: the groups joined to one account.
  function GroupsOf(rows: seq<JoinRow>, accountID: int): seq<GroupRow>
  {
    Select((g: GroupRow) => Joined(rows, accountID, g.id), FirstSeen(rows))
  }

  // The accounts a nids bucket holds: those the rows of the group point at. A row whose
  // account is not indexed contributes a nil pointer.
  ghost predicate Holds(rows: seq<JoinRow>, byID: map<int, Account>, groupID: int, a: Account?)
  {
    exists r | r in rows :: r.group.id == groupID && Holder(byID, r.accountID) == a
  }

  function Holder(byID: map<int, Account>, id: int): Account?
  {
    if id in byID then byID[id] else null
  }

  ghost predicate Buckets(nids: map<int, set<Account?>>, rows: seq<JoinRow>, byID: map<int, Account>)
  {
    && (forall g :: g in nids <==> HasGroup(rows, g))
    && (forall g | g in nids :: forall a | a in nids[g] :: Holds(rows, byID, g, a))
    && forall r | r in rows :: Holder(byID, r.accountID) in nids[r.group.id]
  }

  lemma HasGroupAppend(rows: seq<JoinRow>, row: JoinRow, g: int)
    ensures HasGroup(rows + [row], g) <==> HasGroup(rows, g) || row.group.id == g
  {
    assert row in rows + [row];
  }

  lemma HoldsAppend(rows: seq<JoinRow>, row: JoinRow, byID: map<int, Account>, g: int, a: Account?)
    ensures Holds(rows + [row], byID, g, a) <==>
            Holds(rows, byID, g, a) || (row.group.id == g && Holder(byID, row.accountID) == a)
  {
    assert row in rows + [row];
  }

  lemma BucketsStep(nids: map<int, set<Account?>>, rows: seq<JoinRow>, byID: map<int, Account>, row: JoinRow)
    requires Buckets(nids, rows, byID)
    ensures row.group.id in nids <==> HasGroup(rows, row.group.id)
    ensures row.group.id in nids ==>
              Buckets(nids[row.group.id := nids[row.group.id] + {Holder(byID, row.accountID)}], rows + [row], byID)
    ensures row.group.id !in nids ==>
              Buckets(nids[row.group.id := {Holder(byID, row.accountID)}], rows + [row], byID)
  {
    forall g ensures HasGroup(rows + [row], g) <==> HasGroup(rows, g) || row.group.id == g {
      HasGroupAppend(rows, row, g);
    }
    var holder := Holder(byID, row.accountID);
    var next := nids[row.group.id := if row.group.id in nids then nids[row.group.id] + {holder} else {holder}];
    forall g, a | g in next && a in next[g] ensures Holds(rows + [row], byID, g, a) {
      HoldsAppend(rows, row, byID, g, a);
    }
  }

  lemma FirstSeenStep(rows: seq<JoinRow>, row: JoinRow)
    ensures FirstSeen(rows + [row]) == FirstSeen(rows) + if HasGroup(rows, row.group.id) then [] else [row.group]
  {
    assert (rows + [row])[..|rows|] == rows;
  }

  // The patched spec.Assign: only the first row of a group builds a node.
  method AssignJoinRow(
    row: JoinRow, byID: map<int, Account>, nids: map<int, set<Account?>>, neighbors: seq<Group>,
    ghost rows: seq<JoinRow>)
    returns (nids': map<int, set<Account?>>, neighbors': seq<Group>)
    requires Buckets(nids, rows, byID)
    requires RowsAre(neighbors, FirstSeen(rows))
    ensures Buckets(nids', rows + [row], byID)
    ensures RowsAre(neighbors', FirstSeen(rows + [row]))
    ensures forall n | n in neighbors' :: n in neighbors || fresh(n)
  {
    BucketsStep(nids, rows, byID, row);
    FirstSeenStep(rows, row);
    var outValue, inValue := row.accountID, row.group.id;
    if inValue !in nids {
      var group := new Group(row.group);
      return nids[inValue := {Holder(byID, outValue)}], neighbors + [group];
    }
    return nids[inValue := nids[inValue] + {Holder(byID, outValue)}], neighbors;
  }

  // QueryNodes calls it on every row.
  method ScanJoinRows(rows: seq<JoinRow>, byID: map<int, Account>)
    returns (nids: map<int, set<Account?>>, neighbors: seq<Group>)
    ensures Buckets(nids, rows, byID)
    ensures RowsAre(neighbors, FirstSeen(rows))
    ensures forall n | n in neighbors :: fresh(n)
  {
    nids, neighbors := map[], [];
    for i := 0 to |rows|
      invariant Buckets(nids, rows[..i], byID)
      invariant RowsAre(neighbors, FirstSeen(rows[..i]))
      invariant forall n | n in neighbors :: fresh(n)
    {
      TakeNext(rows, i);
      nids, neighbors := AssignJoinRow(rows[i], byID, nids, neighbors, rows[..i]);
    }
    TakeAll(rows);
  }

  // The inner loop over one pointer set, in whatever order the map yields it. Assigning
  // to a nil account is a nil dereference.
  method AssignGroup(holders: set<Account?>, n: Group, ghost nodes: seq<Account>) returns (ok: bool)
    requires forall a | a in holders && a != null :: a in nodes
    modifies nodes`edges
    ensures ok <==> null !in holders
    ensures forall a | a in nodes :: a.edges == old(a.edges).(groups := a.edges.groups)
    ensures ok ==> forall a | a in nodes ::
              a.edges.groups == old(a.edges.groups) + if a in holders then [n] else []
  {
    var rest := holders;
    while rest != {}
      invariant rest <= holders && null !in holders - rest
      invariant forall a | a in nodes :: a.edges == old(a.edges).(groups := a.edges.groups)
      invariant forall a | a in nodes ::
                  a.edges.groups == old(a.edges.groups) + if a in holders - rest then [n] else []
      decreases rest
    {
      var kn :| kn in rest;
      if kn == null {
        return false;
      }
      kn.edges := kn.edges.(groups := kn.edges.groups + [n]);
      rest := rest - {kn};
    }
    return true;
  }

  predicate Deliverable(n: Group, nids: map<int, set<Account?>>)
  {
    n.row.id in nids && null !in nids[n.row.id]
  }

  // k is the first neighbour that cannot be delivered, and err says why.
  ghost predicate StopsAt(neighbors: seq<Group>, nids: map<int, set<Account?>>, k: nat, err: LoadError)
    requires k < |neighbors|
  {
    && (forall j | 0 <= j < k :: Deliverable(neighbors[j], nids))
    && !Deliverable(neighbors[k], nids)
    && err == if neighbors[k].row.id in nids then NilNode else UnexpectedNode(neighbors[k].row.id)
  }

  // What an account is handed out of a neighbour list.
  function Delivered(nids: map<int, set<Account?>>, a: Account, neighbors: seq<Group>): seq<Group>
  {
    Select((n: Group) => InBucket(nids, n, a), neighbors)
  }

  predicate InBucket(nids: map<int, set<Account?>>, n: Group, a: Account)
  {
    n.row.id in nids && a in nids[n.row.id]
  }

  /** The last loop, for any neighbour list an interceptor may hand back: it fails at the
      first neighbour no row announced, or at the first one a nil account holds. */
  method Distribute(neighbors: seq<Group>, nids: map<int, set<Account?>>, ghost nodes: seq<Account>)
    returns (err: Option<LoadError>)
    requires forall g | g in nids :: forall a | a in nids[g] && a != null :: a in nodes
    modifies nodes`edges
    ensures err.None? <==> forall n | n in neighbors :: Deliverable(n, nids)
    ensures err.Some? ==> exists k | 0 <= k < |neighbors| :: StopsAt(neighbors, nids, k, err.value)
    ensures forall a | a in nodes :: a.edges == old(a.edges).(groups := a.edges.groups)
    ensures err.None? ==> forall a | a in nodes ::
              a.edges.groups == old(a.edges.groups) + Delivered(nids, a, neighbors)
  {
    for i := 0 to |neighbors|
      invariant forall j | 0 <= j < i :: Deliverable(neighbors[j], nids)
      invariant forall a | a in nodes :: a.edges == old(a.edges).(groups := a.edges.groups)
      invariant forall a | a in nodes ::
                  a.edges.groups == old(a.edges.groups) + Delivered(nids, a, neighbors[..i])
    {
      var n := neighbors[i];
      if n.row.id !in nids {
        assert StopsAt(neighbors, nids, i, UnexpectedNode(n.row.id));
        return Some(UnexpectedNode(n.row.id));
      }
      var ok := AssignGroup(nids[n.row.id], n, nodes);
      if !ok {
        assert StopsAt(neighbors, nids, i, NilNode);
        return Some(NilNode);
      }
      TakeNext(neighbors, i);
      forall a | a in nodes
        ensures Delivered(nids, a, neighbors[..i + 1]) ==
                Delivered(nids, a, neighbors[..i]) + if InBucket(nids, n, a) then [n] else []
      {
        SelectAppend((n: Group) => InBucket(nids, n, a), neighbors[..i], n);
      }
    }
    TakeAll(neighbors);
    return None;
  }

  // The shared group objects an account is joined to.
  function GroupsHeld(rows: seq<JoinRow>, accountID: int, neighbors: seq<Group>): seq<Group>
  {
    Select((n: Group) => Joined(rows, accountID, n.row.id), neighbors)
  }

  // Every node holds the groups joined to it, as shared objects, each once.
  ghost predicate GroupsAttached(nodes: seq<Account>, ids: seq<int>, rows: seq<JoinRow>, neighbors: seq<Group>)
    requires |ids| == |nodes|
    reads nodes`edges
  {
    && RowsAre(neighbors, FirstSeen(rows))
    && forall i | 0 <= i < |nodes| ::
         nodes[i].edges.groups == if Owner(ids, i) then GroupsHeld(rows, ids[i], neighbors) else []
  }

  predicate RowsNameParents(rows: seq<JoinRow>, ids: seq<int>)
  {
    forall r | r in rows :: r.accountID in ids
  }

  /** loadGroups: when it succeeds, the node the index points at for an ID holds the
      shared objects of exactly the groups joined to that ID, in order of first
      appearance; an earlier node with the same ID holds none. It fails exactly when the
      query fails or a row names an account outside the parents. */
  method LoadGroups(nodes: seq<Account>, query: Query<JoinRow>)
    returns (err: Option<LoadError>, ghost neighbors: seq<Group>)
    requires Distinct(nodes)
    modifies nodes`edges
    ensures forall a | a in nodes :: a.edges == old(a.edges).(groups := a.edges.groups)
    ensures match query(IDsOf(nodes))
            case Err(e) => err == Some(QueryFailed(e))
            case Ok(rows) =>
              if RowsNameParents(rows, IDsOf(nodes))
              then err == None && GroupsAttached(nodes, IDsOf(nodes), rows, neighbors)
              else err == Some(NilNode)
  {
    var edgeIDs, byID := IndexAndReset(nodes);
    match query(edgeIDs)
    case Err(e) =>
      err, neighbors := Some(QueryFailed(e)), [];
    case Ok(rows) =>
      err, neighbors := AttachGroups(nodes, edgeIDs, byID, rows);
  }

  method AttachGroups(nodes: seq<Account>, ghost ids: seq<int>, byID: map<int, Account>, rows: seq<JoinRow>)
    returns (err: Option<LoadError>, ghost neighbors: seq<Group>)
    requires Distinct(nodes) && |ids| == |nodes| && Indexes(byID, nodes, ids)
    requires forall a | a in nodes :: a.edges.groups == []
    modifies nodes`edges
    ensures forall a | a in nodes :: a.edges == old(a.edges).(groups := a.edges.groups)
    ensures forall n | n in neighbors :: fresh(n)
    ensures if RowsNameParents(rows, ids)
            then err == None && GroupsAttached(nodes, ids, rows, neighbors)
            else err == Some(NilNode)
  {
    var nids, scanned := ScanJoinRows(rows, byID);
    neighbors := scanned;
    BucketsPointAtNodes(nids, rows, byID, nodes, ids);
    NeighborsAnnounced(nids, rows, byID, nodes, ids, neighbors);
    err := Distribute(scanned, nids, nodes);
    forall i | 0 <= i < |nodes|
      ensures Delivered(nids, nodes[i], neighbors) == if Owner(ids, i) then GroupsHeld(rows, ids[i], neighbors) else []
    {
      HeldGroups(nids, rows, byID, nodes, ids, neighbors, i);
    }
  }

  // The first loop: collect the IDs, index the nodes and reset the edge.
  method IndexAndReset(nodes: seq<Account>) returns (edgeIDs: seq<int>, byID: map<int, Account>)
    modifies nodes`edges
    ensures edgeIDs == IDsOf(nodes)
    ensures Indexes(byID, nodes, edgeIDs)
    ensures forall a | a in nodes :: a.edges == old(a.edges).(groups := [])
  {
    edgeIDs, byID := [], map[];
    ghost var ids := IDsOf(nodes);
    for i := 0 to |nodes|
      invariant edgeIDs == ids[..i]
      invariant Indexes(byID, nodes, ids[..i])
      invariant forall a | a in nodes :: a.edges == old(a.edges).(groups := a.edges.groups)
      invariant forall k | 0 <= k < i :: nodes[k].edges.groups == []
    {
      TakeNext(ids, i);
      IndexesStep(byID, nodes, ids[..i], ids[i]);
      edgeIDs := edgeIDs + [nodes[i].Id()];
      byID := byID[nodes[i].Id() := nodes[i]];
      nodes[i].edges := nodes[i].edges.(groups := []);
    }
    TakeAll(ids);
  }

  lemma BucketsPointAtNodes(
    nids: map<int, set<Account?>>, rows: seq<JoinRow>, byID: map<int, Account>, nodes: seq<Account>, ids: seq<int>)
    requires |ids| == |nodes| && Indexes(byID, nodes, ids) && Buckets(nids, rows, byID)
    ensures forall g | g in nids :: forall a | a in nids[g] && a != null :: a in nodes
  {
  }

  // Every scanned neighbour has a bucket, and some bucket holds nil exactly when a row
  // names an account that is not indexed.
  lemma NeighborsAnnounced(
    nids: map<int, set<Account?>>, rows: seq<JoinRow>, byID: map<int, Account>, nodes: seq<Account>, ids: seq<int>,
    neighbors: seq<Group>)
    requires |ids| == |nodes| && Indexes(byID, nodes, ids) && Buckets(nids, rows, byID)
    requires RowsAre(neighbors, FirstSeen(rows))
    ensures forall n | n in neighbors :: n.row.id in nids
    ensures (forall n | n in neighbors :: Deliverable(n, nids)) <==> RowsNameParents(rows, ids)
  {
    FirstSeenCovers(rows);
    forall n | n in neighbors ensures n.row.id in nids {
      assert n.row in FirstSeen(rows);
    }
    forall r | r in rows && r.accountID !in ids
      ensures exists n | n in neighbors :: !Deliverable(n, nids)
    {
      assert Lists(FirstSeen(rows), r.group.id);
      var h :| h in FirstSeen(rows) && h.id == r.group.id;
      var k :| 0 <= k < |FirstSeen(rows)| && FirstSeen(rows)[k] == h;
      assert neighbors[k] in neighbors && Holder(byID, r.accountID) == null;
    }
  }

  lemma {:induction false} FirstSeenNamed(rows: seq<JoinRow>, g: GroupRow)
    requires g in FirstSeen(rows)
    ensures HasGroup(rows, g.id)
  {
    var before, last := rows[..|rows| - 1], rows[|rows| - 1];
    assert rows == before + [last];
    HasGroupAppend(before, last, g.id);
    if g in FirstSeen(before) {
      FirstSeenNamed(before, g);
    }
  }

  lemma {:induction false} SeenAt(rows: seq<JoinRow>, r: JoinRow) returns (k: nat)
    requires r in rows
    ensures k < |FirstSeen(rows)| && FirstSeen(rows)[k].id == r.group.id
  {
    var before, last := rows[..|rows| - 1], rows[|rows| - 1];
    assert rows == before + [last];
    if HasGroup(before, r.group.id) {
      var q :| q in before && q.group.id == r.group.id;
      k := SeenAt(before, q);
    } else {
      assert r == last;
      k := |FirstSeen(before)|;
    }
  }

  // The groups of the rows are exactly those FirstSeen lists.
  lemma FirstSeenCovers(rows: seq<JoinRow>)
    ensures forall g | g in FirstSeen(rows) :: HasGroup(rows, g.id)
    ensures forall r | r in rows :: Lists(FirstSeen(rows), r.group.id)
  {
    forall g | g in FirstSeen(rows) ensures HasGroup(rows, g.id) {
      FirstSeenNamed(rows, g);
    }
    forall r | r in rows ensures Lists(FirstSeen(rows), r.group.id) {
      var k := SeenAt(rows, r);
      assert FirstSeen(rows)[k] in FirstSeen(rows);
    }
  }

  lemma HeldGroups(
    nids: map<int, set<Account?>>, rows: seq<JoinRow>, byID: map<int, Account>, nodes: seq<Account>, ids: seq<int>,
    neighbors: seq<Group>, i: nat)
    requires Distinct(nodes) && i < |nodes|
    requires |ids| == |nodes| && Indexes(byID, nodes, ids) && Buckets(nids, rows, byID)
    ensures Delivered(nids, nodes[i], neighbors) == if Owner(ids, i) then GroupsHeld(rows, ids[i], neighbors) else []
  {
    var p := (n: Group) => InBucket(nids, n, nodes[i]);
    var q := (n: Group) => Joined(rows, ids[i], n.row.id);
    forall n | n in neighbors ensures p(n) == (Owner(ids, i) && q(n)) {
      if p(n) {
        var r :| r in rows && r.group.id == n.row.id && Holder(byID, r.accountID) == nodes[i];
        assert nodes[LastIndex(ids, r.accountID)] == nodes[i];
      }
      if Owner(ids, i) && q(n) {
        var r :| r in rows && r.accountID == ids[i] && r.group.id == n.row.id;
        assert Holder(byID, r.accountID) == nodes[i];
      }
    }
    if Owner(ids, i) {
      SelectCong(p, q, neighbors);
    } else {
      SelectNone(p, neighbors);
    }
  }
}
