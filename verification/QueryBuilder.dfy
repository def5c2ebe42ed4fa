/** The query builders as a mutable tree of objects: builder calls, and the recursive Clone. */
module QueryBuilder {
  import opened QueryTree
  import opened QueryCalls
  import opened QuerySettings

  ghost predicate Held(query: Query, region: set<object>)
    reads region
    decreases region, 2
  {
    query in region && query.Repr <= region && query.Valid()
  }

  ghost predicate Apart(children: map<Edge, Query>)
    reads children.Values
  {
    forall e, f | e in children && f in children && e != f :: children[e].Repr !! children[f].Repr
  }

  // The queries of the edges: within the region, and sharing nothing.
  ghost predicate Forest(children: map<Edge, Query>, region: set<object>)
    reads region
    decreases region, 3
  {
    && (forall e {:trigger children[e]} | e in children :: Held(children[e], region))
    && Apart(children)
  }

  ghost function Views(children: map<Edge, Query>, region: set<object>): map<Edge, Tree>
    requires Forest(children, region)
    reads region
    decreases region, 3
  {
    map e | e in children :: assert Held(children[e], region); children[e].View()
  }

  lemma HeldInMore(query: Query, region: set<object>, more: set<object>)
    requires Held(query, region) && region <= more
    ensures Held(query, more)
  {
  }

  lemma ForestGrows(children: map<Edge, Query>, region: set<object>, edge: Edge, query: Query)
    requires Forest(children, region) && query.Valid() && query.Repr !! region
    ensures Forest(children[edge := query], region + query.Repr)
  {
    var grown, more := children[edge := query], region + query.Repr;
    forall e | e in grown ensures Held(grown[e], more) {
      if e == edge {
        assert Held(query, query.Repr);
        HeldInMore(query, query.Repr, more);
      } else {
        assert Held(children[e], region);
        HeldInMore(children[e], region, more);
      }
    }
    assert Apart(grown) by {
      forall e, f | e in grown && f in grown && e != f ensures grown[e].Repr !! grown[f].Repr {
        assert e != edge ==> Held(children[e], region);
        assert f != edge ==> Held(children[f], region);
      }
    }
  }

  lemma ViewsGrow(children: map<Edge, Query>, region: set<object>, edge: Edge, query: Query)
    requires Forest(children, region) && query.Valid() && Forest(children[edge := query], region + query.Repr)
    ensures Views(children[edge := query], region + query.Repr) == Views(children, region)[edge := query.View()]
  {
  }

  class Query {
    const own: Settings
    var children: map<Edge, Query>
    ghost var mine: set<object>
    ghost var below: set<object>
    ghost var Repr: set<object>

    /** The queries form a tree: nothing is shared between a query and its edges, or between
        two edges. */
    ghost predicate Valid()
      reads this, Repr
      ensures Valid() ==> this in Repr
      decreases Repr, 1
    {
      this in Repr && Sound()
    }

    ghost predicate Sound()
      requires this in Repr
      reads this, Repr
      decreases Repr, 0
    {
      && Repr == {this} + mine + below
      && this !in mine && this !in below && mine !! below
      && own in mine && mine == own.Repr() && own.Valid()
      && Forest(children, below)
    }

    ghost function View(): Tree
      requires Valid()
      reads this, Repr
      decreases Repr, 1
    {
      Detail()
    }

    ghost function Detail(): Tree
      requires Valid()
      reads this, Repr
      decreases Repr, 0
    {
      assert Sound();
      own.View().(children := Views(children, below))
    }

    constructor (settings: Settings, children: map<Edge, Query>, ghost region: set<object>)
      requires settings.Valid() && Forest(children, region) && settings.Repr() !! region
      ensures Valid() && Repr == {this} + settings.Repr() + region
      ensures View() == settings.View().(children := Views(children, region))
    {
      own, this.children, below := settings, children, region;
      new;
      mine := own.Repr();
      Repr := {this} + mine + below;
      assert Sound();
      assert View() == Detail();
    }

    // The new query of a client.
    static method New(kind: Kind) returns (query: Query)
      ensures query.Valid() && fresh(query.Repr) && query.View() == QueryTree.New(kind)
    {
      var settings := Settings.New(kind);
      query := Assemble(settings, map[], settings.Repr(), {});
    }

    // WithGroups and its siblings: the edge gets a query, replacing an earlier one.
    method Attach(edge: Edge, query: Query)
      requires Valid() && query.Valid() && query.Repr !! Repr
      modifies this
      ensures Valid() && Repr == old(Repr) + query.Repr
      ensures View() == old(View()).(children := old(View()).children[edge := old(query.View())])
    {
      assert Sound();
      ForestGrows(children, below, edge, query);
      ViewsGrow(children, below, edge, query);
      children := children[edge := query];
      below := below + query.Repr;
      Repr := Repr + query.Repr;
      assert Sound();
    }

    method Apply(op: Op)
      requires Valid()
      modifies Repr
      ensures Valid() && fresh(Repr - old(Repr))
      ensures View() == QueryTree.Apply(old(View()), op) && HeldAfter(old(View()), [op], View())
      decreases op, 0
    {
      OneCallHeld(View(), op);
      if op.With? {
        var query := NewEdge(Target(op.edge), op.options);
        Attach(op.edge, query);
      } else {
        Set(op);
      }
    }

    // The new query of an edge, after its option functions.
    static method NewEdge(kind: Kind, options: seq<Op>) returns (query: Query)
      ensures query.Valid() && fresh(query.Repr) && query.View() == QueryTree.ApplyAll(QueryTree.New(kind), options)
      ensures HeldAfter(QueryTree.New(kind), options, query.View())
      decreases options, |options| + 1
    {
      CallsHeld(QueryTree.New(kind), options);
      query := New(kind);
      query.ApplyAll(options);
    }

    // A call that concerns this query alone.
    method Set(op: Op)
      requires Valid() && !op.With?
      modifies Repr
      ensures Valid() && fresh(Repr - old(Repr))
      ensures View() == QueryTree.Apply(old(View()), op)
    {
      assert Sound();
      ghost var kids := SetOwn(op);
      Refit(kids);
    }

    // The query owns the storage its settings have moved to.
    ghost method Refit(kids: map<Edge, Tree>)
      requires own.Valid() && Forest(children, below) && Views(children, below) == kids
      requires own.Repr() !! below && own in own.Repr() && this !in own.Repr() && this !in below
      modifies this`mine, this`Repr
      ensures Valid() && Repr == {this} + own.Repr() + below
      ensures View() == own.View().(children := kids)
    {
      mine := own.Repr();
      Repr := {this} + mine + below;
      assert Sound();
      assert View() == Detail();
    }

    // The call on the query's own settings; its edges stay as they are.
    method SetOwn(op: Op) returns (ghost kids: map<Edge, Tree>)
      requires Valid() && !op.With?
      modifies mine
      ensures own.Valid() && fresh(own.Repr() - mine) && mine !! below && own.Repr() !! below && own in own.Repr()
      ensures this !in own.Repr() && this !in below
      ensures Forest(children, below) && Views(children, below) == kids
      ensures own.View().(children := kids) == QueryTree.Apply(old(View()), op)
    {
      assert Sound();
      assert View() == Detail();
      kids := Views(children, below);
      EdgesAside(own.View(), kids, op);
      own.Apply(op);
    }

    method ApplyAll(ops: seq<Op>)
      requires Valid()
      modifies Repr
      ensures Valid() && fresh(Repr - old(Repr))
      ensures View() == QueryTree.ApplyAll(old(View()), ops)
      decreases ops, |ops|
    {
      if ops != [] {
        ApplyAll(ops[..|ops| - 1]);
        Apply(ops[|ops| - 1]);
      }
    }

    /** Clone: fresh storage all the way down, holding what the original holds except for
        the modifiers. It terminates because the edges of a query lie below it. */
    method Clone() returns (copy: Query)
      requires Valid()
      ensures copy.Valid() && fresh(copy.Repr) && copy.View() == Cloned(old(View()))
      decreases Repr, 0
    {
      ghost var t := View();
      var copies, region := CloneEdges(children.Keys);
      ClonesOfAll(t);
      copy := CloneOnto(copies, region);
    }

    // The clone, once those of the edges are there.
    method CloneOnto(copies: map<Edge, Query>, ghost region: set<object>) returns (copy: Query)
      requires Valid() && Forest(copies, region)
      ensures copy.Valid() && fresh(copy.Repr - region)
      ensures copy.View() == old(View()).(modifiers := [], children := old(Views(copies, region)))
    {
      var settings, storage := CloneOwn();
      copy := Assemble(settings, copies, storage, region);
    }

    static method Assemble(
      settings: Settings, copies: map<Edge, Query>, ghost storage: set<object>, ghost region: set<object>)
      returns (copy: Query)
      requires settings.Valid() && storage == settings.Repr() && Forest(copies, region) && storage !! region
      ensures copy.Valid() && fresh(copy) && copy.Repr == {copy} + storage + region
      ensures copy.View() == old(settings.View()).(children := old(Views(copies, region)))
    {
      copy := new Query(settings, copies, region);
    }

    method CloneOwn() returns (settings: Settings, ghost storage: set<object>)
      requires Valid()
      ensures settings.Valid() && storage == settings.Repr() && fresh(storage)
      ensures settings.View() == old(View()).(modifiers := [], children := map[])
    {
      assert Sound();
      assert View() == Detail();
      settings := own.Clone();
      storage := settings.Repr();
    }

    method CloneEdges(edges: set<Edge>) returns (copies: map<Edge, Query>, ghost region: set<object>)
      requires Valid() && edges <= children.Keys
      ensures Forest(copies, region) && fresh(region)
      ensures children.Keys == old(View()).children.Keys
      ensures Views(copies, region) == ClonesOf(old(View()).children, edges)
      decreases below, 3, edges
    {
      assert View() == Detail();
      assert Views(children, below).Keys == children.Keys;
      if edges == {} {
        copies, region := map[], {};
        assert Views(copies, region) == map[];
        return;
      }
      var edge :| edge in edges;
      ClonesOfOneMore(View().children, edges, edge);
      copies, region := CloneEdges(edges - {edge});
      copies, region := AddClone(copies, region, edge);
    }

    method AddClone(copies: map<Edge, Query>, ghost region: set<object>, edge: Edge)
      returns (more: map<Edge, Query>, ghost wider: set<object>)
      requires Valid() && edge in children && Forest(copies, region)
      ensures Forest(more, wider) && region <= wider && fresh(wider - region)
      ensures edge in old(View()).children
      ensures Views(more, wider) == old(Views(copies, region))[edge := Cloned(old(View()).children[edge])]
      decreases below, 2
    {
      var copy := CloneEdge(edge);
      ForestGrows(copies, region, edge, copy);
      ViewsGrow(copies, region, edge, copy);
      more, wider := copies[edge := copy], region + copy.Repr;
    }

    method CloneEdge(edge: Edge) returns (copy: Query)
      requires Valid() && edge in children
      ensures copy.Valid() && fresh(copy.Repr)
      ensures edge in old(View()).children && copy.View() == Cloned(old(View()).children[edge])
      decreases below, 1
    {
      EdgeBelow(edge);
      copy := children[edge].Clone();
    }

    lemma EdgeBelow(edge: Edge)
      requires Valid() && edge in children
      ensures children[edge] in below && children[edge].Repr <= below && children[edge].Valid()
      ensures edge in View().children && View().children[edge] == children[edge].View()
    {
      assert Sound();
      assert Forest(children, below);
      assert Held(children[edge], below);
      assert View() == Detail() == own.View().(children := Views(children, below));
      assert Views(children, below)[edge] == children[edge].View();
    }
  }

  /** Two queries that share no storage stay independent: whatever calls are made on them in
      turn, each ends as if only its own calls had been made. */
  method UseBoth(a: Query, b: Query, calls: seq<(bool, Op)>)
    requires a.Valid() && b.Valid() && a.Repr !! b.Repr
    modifies a.Repr, b.Repr
    ensures a.Valid() && b.Valid() && a.Repr !! b.Repr
    ensures a.View() == UsedBy(true, old(a.View()), calls)
    ensures b.View() == UsedBy(false, old(b.View()), calls)
    ensures fresh(a.Repr - old(a.Repr)) && fresh(b.Repr - old(b.Repr))
  {
    ghost var r, s := UseAll(a, b, calls, a.View(), b.View(), a.Repr, b.Repr);
  }

  // Two separate queries, what they hold, and their storage.
  ghost predicate Beside(a: Query, b: Query, x: Tree, y: Tree, r: set<object>, s: set<object>)
    reads a, b, r, s
  {
    && a.Repr == r && b.Repr == s && r !! s
    && a.Valid() && b.Valid() && a.View() == x && b.View() == y
  }

  // The calls one after the other, from two queries that hold x and y.
  method UseAll(
    a: Query, b: Query, calls: seq<(bool, Op)>, ghost x: Tree, ghost y: Tree, ghost r: set<object>,
    ghost s: set<object>)
    returns (ghost r': set<object>, ghost s': set<object>)
    requires Beside(a, b, x, y, r, s)
    modifies r, s
    ensures Beside(a, b, UsedBy(true, x, calls), UsedBy(false, y, calls), r', s') && fresh(r' - r) && fresh(s' - s)
  {
    if calls == [] {
      return r, s;
    }
    var n := |calls| - 1;
    r', s' := UseAll(a, b, calls[..n], x, y, r, s);
    r', s' := UseNext(a, b, calls[n], UsedBy(true, x, calls[..n]), UsedBy(false, y, calls[..n]), r', s');
  }

  // The next call, on the one or the other.
  method UseNext(
    a: Query, b: Query, call: (bool, Op), ghost x: Tree, ghost y: Tree, ghost r: set<object>, ghost s: set<object>)
    returns (ghost r': set<object>, ghost s': set<object>)
    requires Beside(a, b, x, y, r, s)
    modifies r, s
    ensures
      var x', y' :=
        if call.0 then QueryTree.Apply(x, call.1) else x,
        if call.0 then y else QueryTree.Apply(y, call.1);
      Beside(a, b, x', y', r', s') && fresh(r' - r) && fresh(s' - s)
  {
    if call.0 {
      UseOne(a, b, call.1);
    } else {
      UseOne(b, a, call.1);
    }
    r', s' := a.Repr, b.Repr;
  }

  method UseOne(used: Query, other: Query, op: Op)
    requires used.Valid() && other.Valid() && used.Repr !! other.Repr
    modifies used.Repr
    ensures used.Valid() && other.Valid() && used.Repr !! other.Repr
    ensures used.View() == QueryTree.Apply(old(used.View()), op)
    ensures other.View() == old(other.View()) && other.Repr == old(other.Repr)
    ensures fresh(used.Repr - old(used.Repr))
  {
    used.Apply(op);
  }

  /** A query and its clone: later calls on either never change what the other holds. */
  method CloneAndUse(query: Query, calls: seq<(bool, Op)>) returns (copy: Query)
    requires query.Valid()
    modifies query.Repr
    ensures query.Valid() && copy.Valid() && fresh(copy.Repr) && query.Repr !! copy.Repr
    ensures query.View() == UsedBy(true, old(query.View()), calls)
    ensures copy.View() == UsedBy(false, Cloned(old(query.View())), calls)
  {
    copy := query.Clone();
    UseBoth(query, copy, calls);
  }
}
