/** The many-to-one loader: accounts are bucketed by foreign key, the distinct keys are
    fetched, and every account of a bucket gets the neighbour with its key. */
module LoadProxy {
  import opened Wrappers
  import opened Relations
  import opened Entities
  import opened Loading

  function ProxyIDsOf(nodes: seq<Account>): (keys: seq<Option<int>>)
    reads nodes`scalars
    ensures |keys| == |nodes|
    ensures forall k | 0 <= k < |nodes| :: keys[k] == nodes[k].ProxyID()
  {
    if nodes == [] then [] else ProxyIDsOf(nodes[..|nodes| - 1]) + [nodes[|nodes| - 1].ProxyID()]
  }

  // The proxy a key ends up with: the last neighbour of that ID.
  function ProxyFor(neighbors: seq<Proxy>, key: Option<int>): Proxy?
  {
    if key.None? then null
    else if neighbors == [] then null
    else
      var last := neighbors[|neighbors| - 1];
      if last.row.id == key.value then last else ProxyFor(neighbors[..|neighbors| - 1], key)
  }

  // The first loop of loadProxy.
  method BucketByProxy(nodes: seq<Account>) returns (ids: seq<int>, nodeids: map<int, seq<Account>>)
    ensures Partitioned(ids, nodeids, nodes, ProxyIDsOf(nodes))
  {
    ids, nodeids := [], map[];
    ghost var keys := ProxyIDsOf(nodes);
    for i := 0 to |nodes|
      invariant Partitioned(ids, nodeids, nodes[..i], keys[..i])
    {
      TakeNext(keys, i);
      TakeNext(nodes, i);
      if nodes[i].ProxyID().None? {
        PartitionSkip(ids, nodeids, nodes[..i], keys[..i], nodes[i]);
        continue;
      }
      var fk := nodes[i].ProxyID().value;
      PartitionStep(ids, nodeids, nodes[..i], keys[..i], nodes[i], fk);
      if fk !in nodeids {
        ids := ids + [fk];
      }
      nodeids := nodeids[fk := if fk in nodeids then nodeids[fk] + [nodes[i]] else [nodes[i]]];
    }
    TakeAll(keys);
    TakeAll(nodes);
  }

  // Every account of one bucket gets the neighbour of its key.
  method AssignProxy(bucket: seq<Account>, n: Proxy, ghost nodes: seq<Account>, ghost keys: seq<Option<int>>)
    requires Distinct(nodes) && |keys| == |nodes| && bucket == Bucket(nodes, keys, n.row.id)
    modifies nodes`edges
    ensures forall k | 0 <= k < |nodes| :: nodes[k].edges ==
              old(nodes[k].edges).(proxy := if keys[k] == Some(n.row.id) then n else old(nodes[k].edges.proxy))
  {
    BucketIsByKey(nodes, keys, n.row.id);
    for i := 0 to |bucket|
      invariant forall a | a in nodes ::
                  a.edges == old(a.edges).(proxy := if a in bucket[..i] then n else old(a.edges.proxy))
    {
      TakeNext(bucket, i);
      assert bucket[i] in bucket;
      bucket[i].edges := bucket[i].edges.(proxy := n);
    }
    TakeAll(bucket);
  }

  /** loadProxy: on success every account holds the proxy of its key, or keeps none. It
      fails exactly when the query fails or returns an ID no account asked for. */
  method LoadProxy(nodes: seq<Account>, query: Query<ProxyRow>)
    returns (err: Option<LoadError>, ghost neighbors: seq<Proxy>)
    requires Distinct(nodes)
    requires forall a | a in nodes :: a.edges.proxy == null
    modifies nodes`edges
    ensures forall a | a in nodes :: a.edges == old(a.edges).(proxy := a.edges.proxy)
    ensures var ids := Dedup(Present(ProxyIDsOf(nodes)));
      if ids == [] then err == None && ProxiesAttached(nodes, ProxyIDsOf(nodes), [], neighbors)
      else match query(ids)
           case Err(e) => err == Some(QueryFailed(e))
           case Ok(rows) => ProxiesOutcome(err, nodes, ProxyIDsOf(nodes), ids, rows, neighbors)
  {
    var ids, nodeids := BucketByProxy(nodes);
    if |ids| == 0 {
      NoKeysNoProxies(ProxyIDsOf(nodes));
      return None, [];
    }
    match query(ids)
    case Err(e) =>
      err, neighbors := Some(QueryFailed(e)), [];
    case Ok(rows) =>
      err, neighbors := AttachProxies(nodes, ProxyIDsOf(nodes), ids, nodeids, rows);
  }

  ghost predicate ProxiesAttached(
    nodes: seq<Account>, keys: seq<Option<int>>, rows: seq<ProxyRow>, neighbors: seq<Proxy>)
    requires |keys| == |nodes|
    reads nodes`edges
  {
    && ProxyRowsAre(neighbors, rows)
    && forall k | 0 <= k < |nodes| :: nodes[k].edges.proxy == ProxyFor(neighbors, keys[k])
  }

  function ProxyKey(r: ProxyRow): int
  {
    r.id
  }

  ghost predicate ProxiesOutcome(
    err: Option<LoadError>, nodes: seq<Account>, keys: seq<Option<int>>, ids: seq<int>, rows: seq<ProxyRow>,
    neighbors: seq<Proxy>)
    requires |keys| == |nodes|
    reads nodes`edges
  {
    match Foreign(KeysOf(ProxyKey, rows), ids)
    case None => err == None && ProxiesAttached(nodes, keys, rows, neighbors)
    case Some(id) => err == Some(UnexpectedNode(id))
  }

  ghost predicate ProxyRowsAre(neighbors: seq<Proxy>, rows: seq<ProxyRow>)
  {
    |neighbors| == |rows| && forall k | 0 <= k < |rows| :: neighbors[k].row == rows[k]
  }

  method BuildProxies(rows: seq<ProxyRow>) returns (built: seq<Proxy>)
    ensures ProxyRowsAre(built, rows)
    ensures forall n | n in built :: fresh(n)
  {
    built := [];
    for i := 0 to |rows|
      invariant |built| == i && forall k | 0 <= k < i :: built[k].row == rows[k]
      invariant forall n | n in built :: fresh(n)
    {
      var n := new Proxy(rows[i]);
      built := built + [n];
    }
  }

  method AttachProxies(
    nodes: seq<Account>, ghost keys: seq<Option<int>>, ids: seq<int>, nodeids: map<int, seq<Account>>,
    rows: seq<ProxyRow>)
    returns (err: Option<LoadError>, ghost neighbors: seq<Proxy>)
    requires Distinct(nodes) && |keys| == |nodes| && Partitioned(ids, nodeids, nodes, keys)
    requires forall a | a in nodes :: a.edges.proxy == null
    modifies nodes`edges
    ensures forall a | a in nodes :: a.edges == old(a.edges).(proxy := a.edges.proxy)
    ensures ProxiesOutcome(err, nodes, keys, ids, rows, neighbors)
  {
    var built := BuildProxies(rows);
    neighbors := built;
    ghost var returned := KeysOf(ProxyKey, rows);
    for i := 0 to |built|
      invariant Foreign(returned[..i], ids).None?
      invariant forall k | 0 <= k < |nodes| ::
                  nodes[k].edges == old(nodes[k].edges).(proxy := ProxyFor(built[..i], keys[k]))
    {
      var n := built[i];
      KnownKey(ids, nodeids, nodes, keys, n.row.id);
      ForeignStep(returned, ids, i);
      if n.row.id !in nodeids {
        return Some(UnexpectedNode(n.row.id)), neighbors;
      }
      assert built[..i + 1][..i] == built[..i];
      AssignProxy(nodeids[n.row.id], n, nodes, keys);
    }
    TakeAll(built);
    TakeAll(returned);
    err := None;
  }

  lemma {:induction false} NoKeysNoProxies(keys: seq<Option<int>>)
    requires Dedup(Present(keys)) == []
    ensures forall k | 0 <= k < |keys| :: keys[k] == None
  {
    DedupMembers(Present(keys));
    forall k | 0 <= k < |keys| ensures keys[k] == None {
      if keys[k].Some? {
        PresentHas(keys, k);
      }
    }
  }

  /** The keys loadProxy asks for are the non-null keys, each once, and the buckets it
      builds for them partition the accounts that have one. */
  lemma {:induction false} BucketsCoverKeys(nodes: seq<Account>, keys: seq<Option<int>>)
    requires |keys| == |nodes|
    ensures Distinct(Dedup(Present(keys)))
    ensures forall fk :: fk in Dedup(Present(keys)) <==> exists i | 0 <= i < |keys| :: keys[i] == Some(fk)
    ensures BucketSizes(Dedup(Present(keys)), nodes, keys) == |Present(keys)|
  {
    DedupDistinct(Present(keys));
    DedupMembers(Present(keys));
    forall fk | fk in Dedup(Present(keys)) ensures exists i | 0 <= i < |keys| :: keys[i] == Some(fk) {
      var i := PresentOrigin(keys, fk);
    }
    forall i | 0 <= i < |keys| && keys[i].Some? ensures keys[i].value in Dedup(Present(keys)) {
      PresentHas(keys, i);
    }
    BucketsPartition(Dedup(Present(keys)), nodes, keys);
  }

  function IDOfProxy(n: Proxy): int
  {
    n.row.id
  }

  /** An account ends without a proxy exactly when none of its key came back; with
      distinct neighbours it holds the one of its key. */
  lemma {:induction false} ProxyForIsTheMatch(neighbors: seq<Proxy>, key: Option<int>)
    ensures ProxyFor(neighbors, key) == null <==> forall n | n in neighbors :: key != Some(n.row.id)
    ensures ProxyFor(neighbors, key) != null ==>
              ProxyFor(neighbors, key) in neighbors && key == Some(ProxyFor(neighbors, key).row.id)
    ensures DistinctBy(neighbors, IDOfProxy) ==>
              forall n | n in neighbors && key == Some(n.row.id) :: ProxyFor(neighbors, key) == n
  {
    if neighbors == [] {
    } else {
      var init, last := neighbors[..|neighbors| - 1], neighbors[|neighbors| - 1];
      assert neighbors == init + [last];
      ProxyForIsTheMatch(init, key);
      if DistinctBy(neighbors, IDOfProxy) {
        forall n | n in init ensures n.row.id != last.row.id {
          var i :| 0 <= i < |init| && init[i] == n;
          assert neighbors[i] == n && neighbors[|neighbors| - 1] == last;
        }
      }
    }
  }
}
