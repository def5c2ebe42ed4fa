/** What a query holds after any list of builder calls, setting by setting. */
module QueryCalls {
  import opened Wrappers
  import opened QueryTree

  // What a call sets a single setting to, and what it adds to a list.
  function LimitSet(op: Op): Option<Option<int>>
  {
    match op case Limit(n) => Some(Some(n)) case _ => None
  }

  function OffsetSet(op: Op): Option<Option<int>>
  {
    match op case Offset(n) => Some(Some(n)) case _ => None
  }

  function UniqueSet(op: Op): Option<Option<bool>>
  {
    match op case Unique(b) => Some(Some(b)) case _ => None
  }

  function SelectorSet(op: Op): Option<seq<Name>>
  {
    match op case Prepare(clauses) => Some(clauses) case _ => None
  }

  function PredicatesAdded(op: Op): seq<Name>
  {
    match op case Where(ps) => ps case _ => []
  }

  function OrderAdded(op: Op): seq<Name>
  {
    match op case Order(os) => os case _ => []
  }

  function IntersAdded(op: Op): seq<Name>
  {
    match op case Intercept(xs) => xs case _ => []
  }

  function ModifiersAdded(op: Op): seq<Name>
  {
    match op case Modify(ms) => ms case _ => []
  }

  function FieldsAdded(op: Op): seq<Name>
  {
    match op case Select(fs) => fs case _ => []
  }

  // The last call that sets the value decides; without one it is as before.
  ghost predicate Latest<T>(sets: Op -> Option<T>, ops: seq<Op>, before: T, after: T)
  {
    && ((forall j | 0 <= j < |ops| :: sets(ops[j]).None?) ==> after == before)
    && forall i | 0 <= i < |ops| && sets(ops[i]).Some? && (forall j | i < j < |ops| :: sets(ops[j]).None?) ::
         after == sets(ops[i]).value
  }

  // A list and what the calls add to it, in their order.
  function Extended(list: seq<Name>, adds: Op -> seq<Name>, ops: seq<Op>): seq<Name>
  {
    if ops == [] then list else Extended(list, adds, ops[..|ops| - 1]) + adds(ops[|ops| - 1])
  }

  // The edges no With names are as before.
  ghost predicate OtherEdgesHeld(t: Tree, ops: seq<Op>, r: Tree)
  {
    forall e | NeverOpened(ops, e) :: SameEdge(t, r, e)
  }

  // The settings of a query after some calls. The type and the path never change.
  ghost predicate SettingsHeld(t: Tree, ops: seq<Op>, r: Tree)
  {
    ScalarsHeld(t, ops, r) && ListsHeld(t, ops, r) && r.kind == t.kind && r.path == t.path
  }

  ghost predicate ScalarsHeld(t: Tree, ops: seq<Op>, r: Tree)
  {
    && Latest(LimitSet, ops, t.limit, r.limit)
    && Latest(OffsetSet, ops, t.offset, r.offset)
    && Latest(UniqueSet, ops, t.unique, r.unique)
    && Latest(SelectorSet, ops, t.sql, r.sql)
  }

  ghost predicate ListsHeld(t: Tree, ops: seq<Op>, r: Tree)
  {
    && r.predicates == Extended(t.predicates, PredicatesAdded, ops)
    && r.order == Extended(t.order, OrderAdded, ops)
    && r.inters == Extended(t.inters, IntersAdded, ops)
    && r.modifiers == Extended(t.modifiers, ModifiersAdded, ops)
    && r.fields == Extended(t.fields, FieldsAdded, ops)
  }

  ghost predicate Opens(op: Op, edge: Edge)
  {
    op.With? && op.edge == edge
  }

  ghost predicate NeverOpened(ops: seq<Op>, edge: Edge)
  {
    forall i | 0 <= i < |ops| :: !Opens(ops[i], edge)
  }

  ghost predicate LastWith(ops: seq<Op>, i: nat, edge: Edge)
  {
    i < |ops| && Opens(ops[i], edge) && forall j | i < j < |ops| :: !Opens(ops[j], edge)
  }

  ghost predicate SameEdge(t: Tree, r: Tree, e: Edge)
  {
    (e in r.children <==> e in t.children) && (e in r.children ==> r.children[e] == t.children[e])
  }

  /** What a query holds after some calls. An edge is built from nothing by the options of
      its last With; the other edges are as before. */
  ghost predicate HeldAfter(t: Tree, ops: seq<Op>, r: Tree)
    decreases ops
  {
    && SettingsHeld(t, ops, r)
    && OtherEdgesHeld(t, ops, r)
    && forall e, i: nat | LastWith(ops, i, e) ::
         e in r.children && HeldAfter(New(Target(e)), ops[i].options, r.children[e])
  }

  lemma LatestStep<T>(sets: Op -> Option<T>, ops: seq<Op>, op: Op, before: T, between: T)
    requires Latest(sets, ops, before, between)
    ensures Latest(sets, ops + [op], before, if sets(op).Some? then sets(op).value else between)
  {
    var more := ops + [op];
    assert more[|ops|] == op && forall i | 0 <= i < |ops| :: more[i] == ops[i];
  }

  // What one call does to the single settings, and to the lists.
  lemma ScalarsSet(r: Tree, op: Op)
    ensures var after := Apply(r, op);
      && after.limit == (if LimitSet(op).Some? then LimitSet(op).value else r.limit)
      && after.offset == (if OffsetSet(op).Some? then OffsetSet(op).value else r.offset)
      && after.unique == (if UniqueSet(op).Some? then UniqueSet(op).value else r.unique)
      && after.sql == (if SelectorSet(op).Some? then SelectorSet(op).value else r.sql)
      && after.kind == r.kind && after.path == r.path
  {
  }

  lemma ListsAdded(r: Tree, op: Op)
    ensures var after := Apply(r, op);
      && after.predicates == r.predicates + PredicatesAdded(op)
      && after.order == r.order + OrderAdded(op)
      && after.inters == r.inters + IntersAdded(op)
      && after.modifiers == r.modifiers + ModifiersAdded(op)
      && after.fields == r.fields + FieldsAdded(op)
  {
  }

  lemma ScalarsStep(t: Tree, ops: seq<Op>, op: Op, r: Tree, after: Tree)
    requires ScalarsHeld(t, ops, r) && after == Apply(r, op)
    ensures ScalarsHeld(t, ops + [op], after)
  {
    ScalarsSet(r, op);
    LatestStep(LimitSet, ops, op, t.limit, r.limit);
    LatestStep(OffsetSet, ops, op, t.offset, r.offset);
    LatestStep(UniqueSet, ops, op, t.unique, r.unique);
    LatestStep(SelectorSet, ops, op, t.sql, r.sql);
  }

  lemma ListsStep(t: Tree, ops: seq<Op>, op: Op, r: Tree, after: Tree)
    requires ListsHeld(t, ops, r) && after == Apply(r, op)
    ensures ListsHeld(t, ops + [op], after)
  {
    ListsAdded(r, op);
    assert (ops + [op])[..|ops|] == ops;
  }

  lemma WithStep(ops: seq<Op>, op: Op, e: Edge, i: nat)
    ensures NeverOpened(ops + [op], e) <==> NeverOpened(ops, e) && !Opens(op, e)
    ensures LastWith(ops + [op], i, e) <==> if Opens(op, e) then i == |ops| else LastWith(ops, i, e)
  {
    var more := ops + [op];
    assert more[|ops|] == op && forall k | 0 <= k < |ops| :: more[k] == ops[k];
  }

  lemma SameEdgeStep(t: Tree, r: Tree, op: Op, e: Edge)
    requires SameEdge(t, r, e) && !Opens(op, e)
    ensures SameEdge(t, Apply(r, op), e)
  {
  }

  lemma OtherEdgesStep(t: Tree, ops: seq<Op>, op: Op, r: Tree)
    requires OtherEdgesHeld(t, ops, r)
    ensures OtherEdgesHeld(t, ops + [op], Apply(r, op))
  {
    forall e | NeverOpened(ops + [op], e) ensures SameEdge(t, Apply(r, op), e) {
      WithStep(ops, op, e, 0);
      SameEdgeStep(t, r, op, e);
    }
  }

  // The edge a With opens is the query of its options.
  lemma WithOpens(r: Tree, op: Op, e: Edge)
    requires Opens(op, e)
    ensures e in Apply(r, op).children && Apply(r, op).children[e] == ApplyAll(New(Target(e)), op.options)
  {
  }

  /** Limit, offset and unique are those of the last call of their kind, every list is the
      old one and the arguments of its own calls in order, the selector is that of the last
      traversal, and an edge is built by the options of its last With. */
  lemma {:induction false} CallsHeld(t: Tree, ops: seq<Op>)
    ensures HeldAfter(t, ops, ApplyAll(t, ops))
    decreases ops, |ops|
  {
    if ops == [] {
      assert SettingsHeld(t, ops, t);
    } else {
      var n := |ops| - 1;
      var init, op := ops[..n], ops[n];
      var before, after := ApplyAll(t, init), ApplyAll(t, ops);
      assert ops == init + [op];
      CallsHeld(t, init);
      ScalarsSet(before, op);
      ScalarsStep(t, init, op, before, after);
      ListsStep(t, init, op, before, after);
      OtherEdgesStep(t, init, op, before);
      forall e, i: nat | LastWith(ops, i, e)
        ensures e in after.children && HeldAfter(New(Target(e)), ops[i].options, after.children[e])
      {
        WithStep(init, op, e, i);
        if i == n {
          WithOpens(before, op, e);
          CallsHeld(New(Target(e)), op.options);
        } else {
          assert LastWith(init, i, e);
          SameEdgeStep(before, before, op, e);
        }
      }
    }
  }

  lemma ApplyOne(t: Tree, op: Op)
    ensures ApplyAll(t, [op]) == Apply(t, op)
  {
    assert [op][..0] == [];
    assert ApplyAll(t, []) == t;
  }

  lemma {:induction false} OneCallHeld(t: Tree, op: Op)
    ensures HeldAfter(t, [op], Apply(t, op)) && SettingsHeld(t, [op], Apply(t, op))
  {
    ApplyOne(t, op);
    CallsHeld(t, [op]);
    var after := ApplyAll(t, [op]);
    assert HeldAfter(t, [op], after);
  }

  lemma {:induction false} LatestIsUnique<T>(sets: Op -> Option<T>, ops: seq<Op>, before: T, a: T, b: T)
    requires Latest(sets, ops, before, a) && Latest(sets, ops, before, b)
    ensures a == b
  {
    if ops == [] {
    } else {
      var n := |ops| - 1;
      if sets(ops[n]).None? {
        assert forall i | 0 <= i < n :: ops[..n][i] == ops[i];
        LatestIsUnique(sets, ops[..n], before, a, b);
      }
    }
  }

  lemma {:induction false} SomeLastWith(ops: seq<Op>, e: Edge) returns (i: nat)
    requires !NeverOpened(ops, e)
    ensures LastWith(ops, i, e)
  {
    var n := |ops| - 1;
    if Opens(ops[n], e) {
      i := n;
    } else {
      assert forall k | 0 <= k < n :: ops[..n][k] == ops[k];
      i := SomeLastWith(ops[..n], e);
    }
  }

  lemma SettingsAreUnique(t: Tree, ops: seq<Op>, a: Tree, b: Tree)
    requires SettingsHeld(t, ops, a) && SettingsHeld(t, ops, b)
    ensures a.(children := map[]) == b.(children := map[])
  {
    LatestIsUnique(LimitSet, ops, t.limit, a.limit, b.limit);
    LatestIsUnique(OffsetSet, ops, t.offset, a.offset, b.offset);
    LatestIsUnique(UniqueSet, ops, t.unique, a.unique, b.unique);
    LatestIsUnique(SelectorSet, ops, t.sql, a.sql, b.sql);
  }

  /** Nothing else can be held: the calls determine the query. */
  lemma {:induction false} HeldIsUnique(t: Tree, ops: seq<Op>, a: Tree, b: Tree)
    requires HeldAfter(t, ops, a) && HeldAfter(t, ops, b)
    ensures a == b
    decreases ops
  {
    SettingsAreUnique(t, ops, a, b);
    forall e: Edge ensures SameEdge(a, b, e) {
      if NeverOpened(ops, e) {
        assert SameEdge(t, a, e) && SameEdge(t, b, e);
      } else {
        var i := SomeLastWith(ops, e);
        HeldIsUnique(New(Target(e)), ops[i].options, a.children[e], b.children[e]);
      }
    }
    assert a.children == b.children by {
      forall e: Edge
        ensures (e in a.children <==> e in b.children) && (e in a.children ==> a.children[e] == b.children[e])
      {
        assert SameEdge(a, b, e);
      }
    }
  }

  // A query that nothing was called on.
  ghost predicate Blank(t: Tree, kind: Kind)
  {
    && t.kind == kind && t.limit.None? && t.offset.None? && t.unique.None? && t.path.None? && t.children == map[]
    && t.fields == t.order == t.inters == t.predicates == t.modifiers == t.sql == []
  }

  /** A new query holds what its calls gave it and nothing else. With CallsHeld for the queries of
      the edges, every setting anywhere in the tree was put there by a call. */
  lemma BuiltFromNothing(kind: Kind, ops: seq<Op>)
    ensures exists t :: Blank(t, kind) && HeldAfter(t, ops, ApplyAll(New(kind), ops))
  {
    CallsHeld(New(kind), ops);
    assert Blank(New(kind), kind);
  }

  /** Calls on another query in between make no difference. */
  lemma InterleavedCallsHeld(first: bool, t: Tree, calls: seq<(bool, Op)>)
    ensures HeldAfter(t, CallsOn(first, calls), UsedBy(first, t, calls))
  {
    OwnCallsOnly(first, t, calls);
    CallsHeld(t, CallsOn(first, calls));
  }

  /** The eager-loading edges of an account query, and those of its join rows, hold queries
      of the entities they lead to. */
  lemma EdgesLeadTo(t: Tree, e: Edge)
    requires WellTyped(t) && e in t.children && !e.Link?
    ensures t.kind == AccountQuery ==> e in {Groups, Proxy, UsageLogs, AccountGroups}
    ensures t.kind == AccountGroupQuery ==> e in {Edge.Account, Edge.Group}
    ensures t.kind in {AccountQuery, AccountGroupQuery}
    ensures match e
            case Account => t.children[e].kind == AccountQuery
            case Groups | Group => t.children[e].kind == GroupQuery
            case Proxy => t.children[e].kind == ProxyQuery
            case UsageLogs => t.children[e].kind == UsageLogQuery
            case AccountGroups => t.children[e].kind == AccountGroupQuery
  {
    assert t.children[e].kind == Target(e);
  }
}
