/** What the loaders share: the error values, a child query as the library runs it, and
    the index of parent nodes by ID. */
module Loading {
  import opened Wrappers
  import opened Relations
  import opened Entities

  datatype LoadError =
    | QueryFailed(reason: string)
    | UnexpectedNode(id: int)
    | NilNode

  // A prepared child query: given the keys its extra predicate selects on, the rows the
  // store returns. Predicates, order, limits and interceptors are inside the function.
  type Query<!Row> = seq<int> -> Result<seq<Row>, string>

  function IDsOf(nodes: seq<Account>): (ids: seq<int>)
    reads nodes`scalars
    ensures |ids| == |nodes|
    ensures forall k | 0 <= k < |nodes| :: ids[k] == nodes[k].Id()
  {
    if nodes == [] then [] else IDsOf(nodes[..|nodes| - 1]) + [nodes[|nodes| - 1].Id()]
  }

  // A map from ID to node, filled in order: the last node with an ID wins.
  ghost predicate Indexes(byID: map<int, Account>, nodes: seq<Account>, ids: seq<int>)
    requires |ids| <= |nodes|
  {
    forall x :: (x in byID <==> LastIndex(ids, x) >= 0) && (x in byID ==> byID[x] == nodes[LastIndex(ids, x)])
  }

  lemma IndexesStep(byID: map<int, Account>, nodes: seq<Account>, ids: seq<int>, id: int)
    requires |ids| < |nodes| && Indexes(byID, nodes, ids)
    ensures Indexes(byID[id := nodes[|ids|]], nodes, ids + [id])
  {
    forall x ensures LastIndex(ids + [id], x) == if x == id then |ids| else LastIndex(ids, x) {
      LastIndexAppend(ids, id, x);
    }
  }

  // Node i is the one the index points at for its ID.
  predicate Owner(ids: seq<int>, i: int)
    requires 0 <= i < |ids|
  {
    LastIndex(ids, ids[i]) == i
  }

  // Being the owner of an ID is being at its last position.
  lemma LastIsOwner(ids: seq<int>, x: int, i: nat)
    requires x in ids && i < |ids|
    ensures 0 <= LastIndex(ids, x) && (Owner(ids, i) && ids[i] == x <==> i == LastIndex(ids, x))
  {
  }

  /** Of several parents with one ID the index points at the last. Every parent is its own
      owner exactly when the IDs are distinct. */
  lemma OwnerOf(byID: map<int, Account>, nodes: seq<Account>, ids: seq<int>)
    requires |ids| == |nodes| && Distinct(nodes) && Indexes(byID, nodes, ids)
    ensures forall i | 0 <= i < |ids| :: ids[i] in byID && (byID[ids[i]] == nodes[i] <==> Owner(ids, i))
    ensures forall i | 0 <= i < |ids| :: Owner(ids, i) <==> forall j | i < j < |ids| :: ids[j] != ids[i]
    ensures (forall i | 0 <= i < |ids| :: Owner(ids, i)) <==> Distinct(ids)
  {
    forall i | 0 <= i < |ids| ensures ids[i] in byID && (byID[ids[i]] == nodes[i] <==> Owner(ids, i)) {
      LastIsOwner(ids, ids[i], i);
    }
    if Distinct(ids) {
      forall i | 0 <= i < |ids| ensures Owner(ids, i) {
        LastIndexOfDistinct(ids, i);
      }
    }
    if forall i | 0 <= i < |ids| :: Owner(ids, i) {
      forall i, j | 0 <= i < j < |ids| ensures ids[i] != ids[j] {
        assert Owner(ids, i);
      }
    }
  }

  // The key of each row.
  function KeysOf<R>(key: R -> int, rows: seq<R>): (keys: seq<int>)
    ensures |keys| == |rows| && forall k | 0 <= k < |rows| :: keys[k] == key(rows[k])
  {
    seq(|rows|, i requires 0 <= i < |rows| => key(rows[i]))
  }

  // The group objects of some rows.
  ghost predicate RowsAre(groups: seq<Group>, rows: seq<GroupRow>)
  {
    |groups| == |rows| && forall k | 0 <= k < |rows| :: groups[k].row == rows[k]
  }

  // The non-null keys of a nullable column.
  function Present(keys: seq<Option<int>>): seq<int>
  {
    if keys == [] then []
    else
      var init, last := Present(keys[..|keys| - 1]), keys[|keys| - 1];
      if last.Some? then init + [last.value] else init
  }

  lemma PresentAppend(keys: seq<Option<int>>, key: Option<int>)
    ensures Present(keys + [key]) == if key.Some? then Present(keys) + [key.value] else Present(keys)
  {
    assert (keys + [key])[..|keys|] == keys;
  }

  lemma {:induction false} PresentHas(keys: seq<Option<int>>, i: nat)
    requires i < |keys| && keys[i].Some?
    ensures keys[i].value in Present(keys)
  {
    if i == |keys| - 1 {
    } else {
      PresentHas(keys[..|keys| - 1], i);
    }
  }

  lemma {:induction false} PresentOrigin(keys: seq<Option<int>>, x: int) returns (i: nat)
    requires x in Present(keys)
    ensures i < |keys| && keys[i] == Some(x)
  {
    if keys[|keys| - 1] == Some(x) {
      i := |keys| - 1;
    } else {
      i := PresentOrigin(keys[..|keys| - 1], x);
    }
  }

  // The nodes of one foreign key, in order.
  function Bucket<T>(nodes: seq<T>, keys: seq<Option<int>>, fk: int): seq<T>
    requires |nodes| == |keys|
  {
    if nodes == [] then []
    else
      var n := |nodes| - 1;
      var init := Bucket(nodes[..n], keys[..n], fk);
      if keys[n] == Some(fk) then init + [nodes[n]] else init
  }

  /** The state of a bucketing loop: the distinct keys in order of first appearance, and
      the nodes of each. */
  ghost predicate Partitioned<T>(ids: seq<int>, nodeids: map<int, seq<T>>, nodes: seq<T>, keys: seq<Option<int>>)
    requires |nodes| == |keys|
  {
    && ids == Dedup(Present(keys))
    && (forall fk :: fk in nodeids <==> fk in Present(keys))
    && forall fk | fk in nodeids :: nodeids[fk] == Bucket(nodes, keys, fk)
  }

  lemma BucketAppend<T>(nodes: seq<T>, keys: seq<Option<int>>, node: T, key: Option<int>, fk: int)
    requires |nodes| == |keys|
    ensures Bucket(nodes + [node], keys + [key], fk) ==
            if key == Some(fk) then Bucket(nodes, keys, fk) + [node] else Bucket(nodes, keys, fk)
  {
    assert (nodes + [node])[..|nodes|] == nodes && (keys + [key])[..|keys|] == keys;
  }

  lemma {:induction false} BucketOfAbsentKey<T>(nodes: seq<T>, keys: seq<Option<int>>, fk: int)
    requires |nodes| == |keys| && fk !in Present(keys)
    ensures Bucket(nodes, keys, fk) == []
  {
    if nodes == [] {
    } else {
      BucketOfAbsentKey(nodes[..|nodes| - 1], keys[..|nodes| - 1], fk);
    }
  }

  lemma PartitionSkip<T>(ids: seq<int>, nodeids: map<int, seq<T>>, nodes: seq<T>, keys: seq<Option<int>>, node: T)
    requires |nodes| == |keys| && Partitioned(ids, nodeids, nodes, keys)
    ensures Partitioned(ids, nodeids, nodes + [node], keys + [None])
  {
    PresentAppend(keys, None);
    forall fk ensures Bucket(nodes + [node], keys + [None], fk) == Bucket(nodes, keys, fk) {
      BucketAppend(nodes, keys, node, None, fk);
    }
  }

  lemma PartitionStep<T>(
    ids: seq<int>, nodeids: map<int, seq<T>>, nodes: seq<T>, keys: seq<Option<int>>, node: T, fk: int)
    requires |nodes| == |keys| && Partitioned(ids, nodeids, nodes, keys)
    ensures var bucket := if fk in nodeids then nodeids[fk] + [node] else [node];
      Partitioned(if fk in nodeids then ids else ids + [fk], nodeids[fk := bucket], nodes + [node], keys + [Some(fk)])
  {
    PresentAppend(keys, Some(fk));
    DedupAppend(Present(keys), fk);
    DedupMembers(Present(keys));
    var bucket := if fk in nodeids then nodeids[fk] + [node] else [node];
    forall k | k in nodeids[fk := bucket]
      ensures nodeids[fk := bucket][k] == Bucket(nodes + [node], keys + [Some(fk)], k)
    {
      BucketAppend(nodes, keys, node, Some(fk), k);
      if fk !in nodeids {
        BucketOfAbsentKey(nodes, keys, fk);
      }
    }
  }

  lemma {:induction false} BucketHas<T>(nodes: seq<T>, keys: seq<Option<int>>, fk: int)
    requires |nodes| == |keys|
    ensures forall i | 0 <= i < |nodes| && keys[i] == Some(fk) :: nodes[i] in Bucket(nodes, keys, fk)
  {
    if nodes == [] {
    } else {
      BucketHas(nodes[..|nodes| - 1], keys[..|nodes| - 1], fk);
    }
  }

  // The position a member of a bucket came from.
  lemma {:induction false} BucketOrigin<T>(nodes: seq<T>, keys: seq<Option<int>>, fk: int, k: nat) returns (i: nat)
    requires |nodes| == |keys| && k < |Bucket(nodes, keys, fk)|
    ensures i < |nodes| && keys[i] == Some(fk) && nodes[i] == Bucket(nodes, keys, fk)[k]
  {
    var n := |nodes| - 1;
    if k < |Bucket(nodes[..n], keys[..n], fk)| {
      i := BucketOrigin(nodes[..n], keys[..n], fk, k);
    } else {
      i := n;
    }
  }

  lemma BucketIsByKey<T>(nodes: seq<T>, keys: seq<Option<int>>, fk: int)
    requires Distinct(nodes) && |keys| == |nodes|
    ensures forall k | 0 <= k < |nodes| :: nodes[k] in Bucket(nodes, keys, fk) <==> keys[k] == Some(fk)
    ensures forall k | 0 <= k < |Bucket(nodes, keys, fk)| :: Bucket(nodes, keys, fk)[k] in nodes
  {
    var bucket := Bucket(nodes, keys, fk);
    BucketHas(nodes, keys, fk);
    forall k | 0 <= k < |bucket|
      ensures exists i | 0 <= i < |nodes| :: nodes[i] == bucket[k] && keys[i] == Some(fk)
    {
      var i := BucketOrigin(nodes, keys, fk, k);
    }
  }

  lemma KnownKey<T>(ids: seq<int>, nodeids: map<int, seq<T>>, nodes: seq<T>, keys: seq<Option<int>>, fk: int)
    requires |nodes| == |keys| && Partitioned(ids, nodeids, nodes, keys)
    ensures fk in nodeids <==> fk in ids
  {
    DedupMembers(Present(keys));
  }

  function BucketSizes<T>(ids: seq<int>, nodes: seq<T>, keys: seq<Option<int>>): nat
    requires |nodes| == |keys|
  {
    if ids == [] then 0
    else BucketSizes(ids[..|ids| - 1], nodes, keys) + |Bucket(nodes, keys, ids[|ids| - 1])|
  }

  lemma {:induction false} BucketSizesAppend<T>(
    ids: seq<int>, nodes: seq<T>, keys: seq<Option<int>>, node: T, key: Option<int>)
    requires |nodes| == |keys| && Distinct(ids)
    ensures BucketSizes(ids, nodes + [node], keys + [key]) ==
            BucketSizes(ids, nodes, keys) + if key.Some? && key.value in ids then 1 else 0
  {
    if ids == [] {
    } else {
      var init, last := ids[..|ids| - 1], ids[|ids| - 1];
      assert ids == init + [last];
      BucketSizesAppend(init, nodes, keys, node, key);
      BucketAppend(nodes, keys, node, key, last);
    }
  }

  lemma {:induction false} EmptyBuckets<T>(ids: seq<int>, nodes: seq<T>, keys: seq<Option<int>>)
    requires |nodes| == |keys| == 0
    ensures BucketSizes(ids, nodes, keys) == 0
  {
    if ids == [] {
    } else {
      EmptyBuckets(ids[..|ids| - 1], nodes, keys);
    }
  }

  /** The buckets partition the nodes that have a key: over any duplicate-free list
      covering the keys, their sizes add up to the number of such nodes. */
  lemma {:induction false} BucketsPartition<T>(ids: seq<int>, nodes: seq<T>, keys: seq<Option<int>>)
    requires |nodes| == |keys| && Distinct(ids)
    requires forall i | 0 <= i < |keys| && keys[i].Some? :: keys[i].value in ids
    ensures BucketSizes(ids, nodes, keys) == |Present(keys)|
  {
    if nodes == [] {
      EmptyBuckets(ids, nodes, keys);
    } else {
      var n := |nodes| - 1;
      var before, node, past, key := nodes[..n], nodes[n], keys[..n], keys[n];
      BucketsPartition(ids, before, past);
      BucketSizesAppend(ids, before, past, node, key);
      PresentAppend(past, key);
      assert nodes == before + [node] && keys == past + [key];
    }
  }

  // The first key, in order, that names no parent.
  function Foreign(fks: seq<int>, ids: seq<int>): Option<int>
  {
    if fks == [] then None
    else
      var earlier, last := Foreign(fks[..|fks| - 1], ids), fks[|fks| - 1];
      if earlier.Some? then earlier else if last in ids then None else Some(last)
  }

  lemma {:induction false} ForeignStays(fks: seq<int>, ids: seq<int>, i: nat)
    requires i <= |fks| && Foreign(fks[..i], ids).Some?
    ensures Foreign(fks, ids) == Foreign(fks[..i], ids)
  {
    if i == |fks| {
      TakeAll(fks);
    } else {
      assert fks[..|fks| - 1][..i] == fks[..i];
      ForeignStays(fks[..|fks| - 1], ids, i);
    }
  }

  lemma ForeignStep(fks: seq<int>, ids: seq<int>, i: nat)
    requires i < |fks| && Foreign(fks[..i], ids).None?
    ensures fks[i] in ids ==> Foreign(fks[..i + 1], ids) == None
    ensures fks[i] !in ids ==> Foreign(fks, ids) == Some(fks[i])
  {
    assert fks[..i + 1][..i] == fks[..i];
    if fks[i] !in ids {
      ForeignStays(fks, ids, i + 1);
    }
  }

  /** No key is foreign exactly when every key names a parent; otherwise it is the first
      that does not. */
  lemma {:induction false} ForeignIsFirst(fks: seq<int>, ids: seq<int>)
    ensures Foreign(fks, ids).None? <==> forall k | 0 <= k < |fks| :: fks[k] in ids
    ensures Foreign(fks, ids).Some? ==>
              exists k | 0 <= k < |fks| ::
                fks[k] == Foreign(fks, ids).value && fks[k] !in ids && forall j | 0 <= j < k :: fks[j] in ids
  {
    if fks == [] {
    } else {
      var n := |fks| - 1;
      ForeignIsFirst(fks[..n], ids);
      if Foreign(fks[..n], ids).Some? {
        var k :|
          && 0 <= k < n && fks[..n][k] == Foreign(fks[..n], ids).value && fks[..n][k] !in ids
          && forall j | 0 <= j < k :: fks[..n][j] in ids;
        assert fks[k] == Foreign(fks, ids).value && forall j | 0 <= j < k :: fks[..n][j] in ids;
        assert forall j | 0 <= j < k :: fks[j] == fks[..n][j];
      } else {
        assert forall j | 0 <= j < n :: fks[..n][j] in ids && fks[j] == fks[..n][j];
        assert fks[n] !in ids ==> fks[n] == Foreign(fks, ids).value;
      }
    }
  }

  /** A bucket is the order-preserving selection of the nodes by their key. */
  lemma {:induction false} BucketIsSelection<T>(nodes: seq<T>, keys: seq<Option<int>>, key: T -> int, fk: int)
    requires |nodes| == |keys| && forall i | 0 <= i < |nodes| :: keys[i] == Some(key(nodes[i]))
    ensures Bucket(nodes, keys, fk) == Select((n: T) => key(n) == fk, nodes)
  {
    if nodes == [] {
    } else {
      BucketIsSelection(nodes[..|nodes| - 1], keys[..|nodes| - 1], key, fk);
    }
  }

  // The children of one ID, in order.
  function ChildrenOf<T>(key: T -> int, id: int, children: seq<T>): seq<T>
  {
    Select((n: T) => key(n) == id, children)
  }

  lemma ChildrenOfAppend<T>(key: T -> int, id: int, children: seq<T>, n: T)
    ensures ChildrenOf(key, id, children + [n]) == ChildrenOf(key, id, children) + if key(n) == id then [n] else []
  {
    SelectAppend((m: T) => key(m) == id, children, n);
  }

  // The positions of the children of an ID among all of them, in order.
  ghost predicate Positions<T>(key: T -> int, id: int, children: seq<T>, picked: seq<T>, at: seq<nat>)
  {
    && |at| == |picked|
    && (forall k | 0 <= k < |at| :: at[k] < |children| && children[at[k]] == picked[k] && key(picked[k]) == id)
    && (forall j, k | 0 <= j < k < |at| :: at[j] < at[k])
    && forall p: nat | p < |children| && key(children[p]) == id :: p in at
  }

  lemma PositionsStep<T>(key: T -> int, id: int, children: seq<T>, picked: seq<T>, at: seq<nat>, n: T)
    requires Positions(key, id, children, picked, at)
    ensures if key(n) == id then Positions(key, id, children + [n], picked + [n], at + [|children|])
            else Positions(key, id, children + [n], picked, at)
  {
    var more := children + [n];
    assert more[|children|] == n && forall p | 0 <= p < |children| :: more[p] == children[p];
    if key(n) == id {
      var after := at + [|children|];
      assert after[|at|] == |children| && forall k | 0 <= k < |at| :: after[k] == at[k];
    }
  }

  /** The children of an ID are those with its key, each as often as it came back, in the
      order in which they did. */
  lemma {:induction false} ChildrenInOrder<T>(key: T -> int, id: int, children: seq<T>) returns (at: seq<nat>)
    ensures Positions(key, id, children, ChildrenOf(key, id, children), at)
  {
    if children == [] {
      at := [];
    } else {
      var init, last := children[..|children| - 1], children[|children| - 1];
      assert children == init + [last];
      var before := ChildrenInOrder(key, id, init);
      PositionsStep(key, id, init, ChildrenOf(key, id, init), before, last);
      ChildrenOfAppend(key, id, init, last);
      if key(last) == id {
        at := before + [|init|];
      } else {
        at := before;
        assert ChildrenOf(key, id, children) == ChildrenOf(key, id, init);
      }
    }
  }

  // The list of each parent: the children of its ID, if the index points at it.
  function OwnedLists<T>(ids: seq<int>, key: T -> int, children: seq<T>): (lists: seq<seq<T>>)
    ensures |lists| == |ids|
    ensures forall i | 0 <= i < |ids| :: lists[i] == if Owner(ids, i) then ChildrenOf(key, ids[i], children) else []
  {
    seq(|ids|, i requires 0 <= i < |ids| => if Owner(ids, i) then ChildrenOf(key, ids[i], children) else [])
  }

  function TotalLength<T>(lists: seq<seq<T>>): nat
  {
    if lists == [] then 0 else TotalLength(lists[..|lists| - 1]) + |lists[|lists| - 1]|
  }

  // Lengthening one list by one lengthens the total by one.
  lemma {:induction false} TotalGrows<T>(before: seq<seq<T>>, after: seq<seq<T>>, i: nat)
    requires i < |before| == |after| && |after[i]| == |before[i]| + 1
    requires forall j | 0 <= j < |before| && j != i :: after[j] == before[j]
    ensures TotalLength(after) == TotalLength(before) + 1
  {
    var n := |before| - 1;
    if i < n {
      TotalGrows(before[..n], after[..n], i);
    } else {
      assert before[..n] == after[..n];
    }
  }

  lemma {:induction false} EmptyLists<T>(lists: seq<seq<T>>)
    requires forall i | 0 <= i < |lists| :: lists[i] == []
    ensures TotalLength(lists) == 0
  {
    if lists == [] {
    } else {
      EmptyLists(lists[..|lists| - 1]);
    }
  }

  lemma OneMoreChild<T>(ids: seq<int>, key: T -> int, children: seq<T>, n: T, i: nat)
    requires i < |ids| && key(n) in ids
    ensures OwnedLists(ids, key, children + [n])[i] ==
            if i == LastIndex(ids, key(n)) then OwnedLists(ids, key, children)[i] + [n]
            else OwnedLists(ids, key, children)[i]
  {
    LastIsOwner(ids, key(n), i);
    ChildrenOfAppend(key, ids[i], children, n);
  }

  lemma TotalOneMore<T>(ids: seq<int>, key: T -> int, children: seq<T>, n: T)
    requires key(n) in ids
    ensures TotalLength(OwnedLists(ids, key, children + [n])) == TotalLength(OwnedLists(ids, key, children)) + 1
  {
    var owner := LastIndex(ids, key(n));
    LastIsOwner(ids, key(n), 0);
    var before, after := OwnedLists(ids, key, children), OwnedLists(ids, key, children + [n]);
    OneMoreChild(ids, key, children, n, owner);
    forall j | 0 <= j < |before| && j != owner ensures after[j] == before[j] {
      OneMoreChild(ids, key, children, n, j);
    }
    TotalGrows(before, after, owner);
  }

  lemma {:induction false} TotalConserved<T>(ids: seq<int>, key: T -> int, children: seq<T>)
    requires forall n | n in children :: key(n) in ids
    ensures TotalLength(OwnedLists(ids, key, children)) == |children|
  {
    if children == [] {
      EmptyLists(OwnedLists(ids, key, children));
    } else {
      var init, last := children[..|children| - 1], children[|children| - 1];
      assert children == init + [last];
      TotalConserved(ids, key, init);
      TotalOneMore(ids, key, init, last);
    }
  }

  /** Rows are conserved: when every child names a parent, each child is in the list of
      exactly one parent, and the lists together are as long as the children. */
  lemma {:induction false} ChildrenConserved<T>(ids: seq<int>, key: T -> int, children: seq<T>)
    requires forall n | n in children :: key(n) in ids
    ensures forall n, i | n in children && 0 <= i < |ids| ::
              n in OwnedLists(ids, key, children)[i] <==> i == LastIndex(ids, key(n))
    ensures TotalLength(OwnedLists(ids, key, children)) == |children|
  {
    TotalConserved(ids, key, children);
    forall n, i | n in children && 0 <= i < |ids|
      ensures n in OwnedLists(ids, key, children)[i] <==> i == LastIndex(ids, key(n))
    {
      LastIsOwner(ids, key(n), i);
      SelectMembers((m: T) => key(m) == ids[i], children);
    }
  }
}
