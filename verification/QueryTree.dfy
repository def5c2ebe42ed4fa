/** What a query builder holds, as a value: its own settings and the builders of its edges. */
module QueryTree {
  import opened Wrappers

  // Predicates, orderings, interceptors, modifiers, traversal paths and the clauses of a selector by name.
  type Name = nat

  // The builder types, and the edges between them; Link stands for the edges of other entities.
  datatype Kind =
    | AccountQuery
    | AccountGroupQuery
    | GroupQuery
    | ProxyQuery
    | UsageLogQuery
    | OtherQuery(entity: string)

  datatype Edge = Account | Groups | Group | Proxy | UsageLogs | AccountGroups | Link(source: Kind, target: Kind)

  // The type of builder an edge leads from, and to.
  function Source(edge: Edge): Kind
  {
    match edge
    case Groups | Proxy | UsageLogs | AccountGroups => AccountQuery
    case Account | Group => AccountGroupQuery
    case Link(source, _) => source
  }

  function Target(edge: Edge): Kind
  {
    match edge
    case Account => AccountQuery
    case Groups | Group => GroupQuery
    case Proxy => ProxyQuery
    case UsageLogs => UsageLogQuery
    case AccountGroups => AccountGroupQuery
    case Link(_, target) => target
  }

  datatype Tree = Tree(
    kind: Kind,
    limit: Option<int>,
    offset: Option<int>,
    unique: Option<bool>,
    fields: seq<Name>,
    order: seq<Name>,
    inters: seq<Name>,
    predicates: seq<Name>,
    modifiers: seq<Name>,
    path: Option<Name>,
    sql: seq<Name>,
    children: map<Edge, Tree>)

  // A builder call, or the preparation of a traversal, which keeps the selector of the path.
  // The option functions of With are the calls they make on the new query.
  datatype Op =
    | Where(ps: seq<Name>)
    | Order(os: seq<Name>)
    | Intercept(inters: seq<Name>)
    | Modify(ms: seq<Name>)
    | Select(fs: seq<Name>)
    | Limit(n: int)
    | Offset(n: int)
    | Unique(b: bool)
    | Prepare(clauses: seq<Name>)
    | With(edge: Edge, options: seq<Op>)

  function New(kind: Kind): Tree
  {
    Tree(kind, None, None, None, [], [], [], [], [], None, [], map[])
  }

  function Apply(t: Tree, op: Op): Tree
    decreases op, 0
  {
    match op
    case Where(ps) => t.(predicates := t.predicates + ps)
    case Order(os) => t.(order := t.order + os)
    case Intercept(xs) => t.(inters := t.inters + xs)
    case Modify(ms) => t.(modifiers := t.modifiers + ms)
    case Select(fs) => t.(fields := t.fields + fs)
    case Limit(n) => t.(limit := Some(n))
    case Offset(n) => t.(offset := Some(n))
    case Unique(b) => t.(unique := Some(b))
    case Prepare(clauses) => t.(sql := clauses)
    case With(edge, options) => t.(children := t.children[edge := ApplyAll(New(Target(edge)), options)])
  }

  function ApplyAll(t: Tree, ops: seq<Op>): Tree
    decreases ops, |ops|
  {
    if ops == [] then t else Apply(ApplyAll(t, ops[..|ops| - 1]), ops[|ops| - 1])
  }

  // Calls other than With leave the edges alone.
  lemma EdgesAside(t: Tree, kids: map<Edge, Tree>, op: Op)
    requires !op.With?
    ensures Apply(t.(children := kids), op) == Apply(t, op).(children := kids)
  {
  }

  // A clone has no modifiers, at any depth.
  function Cloned(t: Tree): Tree
  {
    t.(modifiers := [], children := map e | e in t.children :: Cloned(t.children[e]))
  }

  function ClonesOf(children: map<Edge, Tree>, edges: set<Edge>): map<Edge, Tree>
    requires edges <= children.Keys
  {
    map e | e in edges :: Cloned(children[e])
  }

  lemma ClonesOfOneMore(children: map<Edge, Tree>, edges: set<Edge>, e: Edge)
    requires e in edges && edges <= children.Keys
    ensures ClonesOf(children, edges) == ClonesOf(children, edges - {e})[e := Cloned(children[e])]
  {
  }

  lemma ClonesOfAll(t: Tree)
    ensures Cloned(t) == t.(modifiers := [], children := ClonesOf(t.children, t.children.Keys))
  {
  }

  ghost predicate NoModifiers(t: Tree)
  {
    t.modifiers == [] && forall e | e in t.children :: NoModifiers(t.children[e])
  }

  lemma {:induction false} CloneHasNoModifiers(t: Tree)
    ensures NoModifiers(Cloned(t))
  {
    forall e | e in t.children ensures NoModifiers(Cloned(t).children[e]) {
      CloneHasNoModifiers(t.children[e]);
    }
  }

  /** A clone equals its original exactly when no query of the tree has modifiers. */
  lemma {:induction false} CloneIsEqual(t: Tree)
    ensures Cloned(t) == t <==> NoModifiers(t)
  {
    forall e | e in t.children ensures Cloned(t.children[e]) == t.children[e] <==> NoModifiers(t.children[e]) {
      CloneIsEqual(t.children[e]);
    }
    if Cloned(t) == t {
      forall e | e in t.children ensures NoModifiers(t.children[e]) {
        assert Cloned(t).children[e] == Cloned(t.children[e]);
      }
    }
  }

  ghost predicate NoModify(op: Op)
    decreases op, 0
  {
    match op
    case Modify(ms) => ms == []
    case With(_, options) => NeverModify(options)
    case _ => true
  }

  ghost predicate NeverModify(ops: seq<Op>)
    decreases ops, |ops|
  {
    ops == [] || (NeverModify(ops[..|ops| - 1]) && NoModify(ops[|ops| - 1]))
  }

  // Calls made on a clone instead of its original: the clone of the result, when no
  // modifiers are added.
  lemma {:induction false} CloneThenApply(t: Tree, op: Op)
    requires NoModify(op)
    ensures Cloned(Apply(t, op)) == Apply(Cloned(t), op)
    decreases op, 0
  {
    if op.With? {
      CloneThenApplyAll(New(Target(op.edge)), op.options);
      assert Cloned(New(Target(op.edge))) == New(Target(op.edge));
      assert Cloned(Apply(t, op)).children == Apply(Cloned(t), op).children;
    }
  }

  /** Cloning commutes with later builder calls that add no modifiers. */
  lemma {:induction false} CloneThenApplyAll(t: Tree, ops: seq<Op>)
    requires NeverModify(ops)
    ensures Cloned(ApplyAll(t, ops)) == ApplyAll(Cloned(t), ops)
    decreases ops, |ops|
  {
    if ops == [] {
    } else {
      CloneThenApplyAll(t, ops[..|ops| - 1]);
      CloneThenApply(ApplyAll(t, ops[..|ops| - 1]), ops[|ops| - 1]);
    }
  }

  // The calls made on one of two queries, of a sequence of calls on both.
  function CallsOn(first: bool, calls: seq<(bool, Op)>): seq<Op>
  {
    if calls == [] then []
    else
      var n := |calls| - 1;
      if calls[n].0 == first then CallsOn(first, calls[..n]) + [calls[n].1] else CallsOn(first, calls[..n])
  }

  // What a query holds after a sequence of calls, of which only its own concern it.
  function UsedBy(first: bool, t: Tree, calls: seq<(bool, Op)>): Tree
  {
    if calls == [] then t
    else
      var n := |calls| - 1;
      var before := UsedBy(first, t, calls[..n]);
      if calls[n].0 == first then Apply(before, calls[n].1) else before
  }

  /** As if only its own calls had been made. */
  lemma {:induction false} OwnCallsOnly(first: bool, t: Tree, calls: seq<(bool, Op)>)
    ensures UsedBy(first, t, calls) == ApplyAll(t, CallsOn(first, calls))
  {
    if calls == [] {
    } else {
      var n := |calls| - 1;
      OwnCallsOnly(first, t, calls[..n]);
      var own := CallsOn(first, calls[..n]);
      assert (own + [calls[n].1])[..|own|] == own;
    }
  }

  // Every edge leads from its query's type to its own.
  ghost predicate WellTyped(t: Tree)
  {
    forall e | e in t.children :: Source(e) == t.kind && t.children[e].kind == Target(e) && WellTyped(t.children[e])
  }

  // With is a method of the edge's own builder type only.
  ghost predicate Callable(kind: Kind, op: Op)
    decreases op, 0
  {
    op.With? ==> Source(op.edge) == kind && AllCallable(Target(op.edge), op.options)
  }

  ghost predicate AllCallable(kind: Kind, ops: seq<Op>)
    decreases ops, |ops|
  {
    ops == [] || (AllCallable(kind, ops[..|ops| - 1]) && Callable(kind, ops[|ops| - 1]))
  }

  /** Whatever calls are made, a query keeps its type, and each edge a query of its own type. */
  lemma {:induction false} CallsKeepTypes(t: Tree, ops: seq<Op>)
    requires WellTyped(t) && AllCallable(t.kind, ops)
    ensures WellTyped(ApplyAll(t, ops)) && ApplyAll(t, ops).kind == t.kind
    decreases ops, |ops|
  {
    if ops == [] {
    } else {
      CallsKeepTypes(t, ops[..|ops| - 1]);
      CallKeepsTypes(ApplyAll(t, ops[..|ops| - 1]), ops[|ops| - 1]);
    }
  }

  lemma {:induction false} CallKeepsTypes(t: Tree, op: Op)
    requires WellTyped(t) && Callable(t.kind, op)
    ensures WellTyped(Apply(t, op)) && Apply(t, op).kind == t.kind
    decreases op, 0
  {
    if op.With? {
      CallsKeepTypes(New(Target(op.edge)), op.options);
    } else {
      assert Apply(t, op).children == t.children;
    }
  }

  /** So do clones: the clones of all builder types call each other along the edges. */
  lemma {:induction false} ClonesKeepTypes(t: Tree)
    requires WellTyped(t)
    ensures WellTyped(Cloned(t)) && Cloned(t).kind == t.kind
  {
    forall e | e in t.children ensures WellTyped(Cloned(t.children[e])) && Cloned(t.children[e]).kind == Target(e) {
      ClonesKeepTypes(t.children[e]);
    }
  }
}
