/** What a query owns besides its edges: its context and its lists, which are Go slices. */
module QuerySettings {
  import opened Wrappers
  import opened QueryTree
  import opened QueryCalls

  /** A Go slice: a backing array and how much of it is used. */
  datatype Slice = Slice(data: array<Name>, len: nat) {

    ghost predicate Valid() {
      len <= data.Length
    }

    ghost function Contents(): seq<Name>
      requires Valid()
      reads data
    {
      data[..len]
    }
  }

  method Empty() returns (s: Slice)
    ensures s.Valid() && fresh(s.data) && s.Contents() == []
  {
    var data := new Name[0];
    s := Slice(data, 0);
  }

  /** Appending writes into the backing array while it has room, and moves to a larger one
      when it has not. */
  method Append(s: Slice, xs: seq<Name>) returns (r: Slice)
    requires s.Valid()
    modifies s.data
    ensures r.Valid() && r.Contents() == old(s.Contents()) + xs
    ensures r.data == s.data || fresh(r.data)
  {
    var data := s.data;
    if s.len + |xs| > data.Length {
      var capacity :| capacity >= s.len + |xs|;
      data := new Name[capacity];
      forall k | 0 <= k < s.len {
        data[k] := s.data[k];
      }
    }
    forall k | 0 <= k < |xs| {
      data[s.len + k] := xs[k];
    }
    r := Slice(data, s.len + |xs|);
  }

  // append([]T{}, s...): a slice with a backing array of its own.
  method Copy(s: Slice) returns (r: Slice)
    requires s.Valid()
    ensures r.Valid() && fresh(r.data) && r.Contents() == s.Contents()
  {
    r := Empty();
    r := Append(r, s.data[..s.len]);
  }

  class Settings {
    const kind: Kind
    var limit: Option<int>
    var offset: Option<int>
    var unique: Option<bool>
    var fields: Slice
    var order: Slice
    var inters: Slice
    var predicates: Slice
    var modifiers: Slice
    const path: Option<Name>
    var sql: Slice

    ghost function Repr(): set<object>
      reads this
    {
      {this, fields.data, order.data, inters.data, predicates.data, modifiers.data, sql.data}
    }

    ghost predicate Valid()
      reads this
    {
      && fields.Valid() && order.Valid() && inters.Valid() && predicates.Valid() && modifiers.Valid()
      && sql.Valid() && fields.data != order.data && fields.data != inters.data && fields.data != predicates.data
      && fields.data != modifiers.data && order.data != inters.data && order.data != predicates.data
      && order.data != modifiers.data && inters.data != predicates.data && inters.data != modifiers.data
      && predicates.data != modifiers.data && sql.data != fields.data && sql.data != order.data
      && sql.data != inters.data && sql.data != predicates.data && sql.data != modifiers.data
    }

    ghost function View(): Tree
      requires Valid()
      reads this, Repr()
    {
      Tree(kind, limit, offset, unique, fields.Contents(), order.Contents(), inters.Contents(),
           predicates.Contents(), modifiers.Contents(), path, sql.Contents(), map[])
    }

    constructor (kind: Kind, limit: Option<int>, offset: Option<int>, unique: Option<bool>, fields: Slice, order: Slice,
                 inters: Slice, predicates: Slice, modifiers: Slice, path: Option<Name>, sql: Slice)
      ensures this.kind == kind && this.sql == sql
      ensures this.limit == limit && this.offset == offset && this.unique == unique && this.path == path
      ensures this.fields == fields && this.order == order && this.inters == inters
      ensures this.predicates == predicates && this.modifiers == modifiers
    {
      this.kind, this.limit, this.offset, this.unique, this.path, this.sql := kind, limit, offset, unique, path, sql;
      this.fields, this.order, this.inters := fields, order, inters;
      this.predicates, this.modifiers := predicates, modifiers;
    }

    static method New(kind: Kind) returns (s: Settings)
      ensures s.Valid() && fresh(s.Repr()) && s.View() == QueryTree.New(kind)
    {
      var fields := Empty();
      var order := Empty();
      var inters := Empty();
      var predicates := Empty();
      var modifiers := Empty();
      var sql := Empty();
      s := new Settings(kind, None, None, None, fields, order, inters, predicates, modifiers, None, sql);
    }

    // Everything but the modifiers is copied; the path is shared.
    method Clone() returns (s: Settings)
      requires Valid()
      ensures s.Valid() && fresh(s.Repr()) && s.View() == View().(modifiers := [])
    {
      var f := Copy(fields);
      var o := Copy(order);
      var i := Copy(inters);
      var p := Copy(predicates);
      var none := Empty();
      var q := Copy(sql);
      s := new Settings(kind, limit, offset, unique, f, o, i, p, none, path, q);
    }

    // A builder call other than With.
    method Apply(op: Op)
      requires Valid() && !op.With?
      modifies Repr()
      ensures Valid() && fresh(Repr() - old(Repr()))
      ensures View() == QueryTree.Apply(old(View()), op) && SettingsHeld(old(View()), [op], View())
    {
      OneCallHeld(View(), op);
      match op
      case Where(ps) => Where(ps);
      case Order(os) => OrderBy(os);
      case Intercept(xs) => Intercept(xs);
      case Modify(ms) => Modify(ms);
      case Select(fs) => Select(fs);
      case Limit(n) => limit := Some(n);
      case Offset(n) => offset := Some(n);
      case Unique(b) => unique := Some(b);
      case Prepare(clauses) => Prepare(clauses);
    }

    method Where(ps: seq<Name>)
      requires Valid()
      modifies Repr()
      ensures Valid() && fresh(Repr() - old(Repr()))
      ensures View() == QueryTree.Apply(old(View()), Op.Where(ps))
    {
      predicates := Append(predicates, ps);
    }

    method OrderBy(os: seq<Name>)
      requires Valid()
      modifies Repr()
      ensures Valid() && fresh(Repr() - old(Repr()))
      ensures View() == QueryTree.Apply(old(View()), Op.Order(os))
    {
      order := Append(order, os);
    }

    method Intercept(xs: seq<Name>)
      requires Valid()
      modifies Repr()
      ensures Valid() && fresh(Repr() - old(Repr()))
      ensures View() == QueryTree.Apply(old(View()), Op.Intercept(xs))
    {
      inters := Append(inters, xs);
    }

    method Modify(ms: seq<Name>)
      requires Valid()
      modifies Repr()
      ensures Valid() && fresh(Repr() - old(Repr()))
      ensures View() == QueryTree.Apply(old(View()), Op.Modify(ms))
    {
      modifiers := Append(modifiers, ms);
    }

    method Select(fs: seq<Name>)
      requires Valid()
      modifies Repr()
      ensures Valid() && fresh(Repr() - old(Repr()))
      ensures View() == QueryTree.Apply(old(View()), Op.Select(fs))
    {
      fields := Append(fields, fs);
    }

    // prepareQuery keeps the selector that the path returns.
    method Prepare(clauses: seq<Name>)
      requires Valid()
      modifies this
      ensures Valid() && fresh(Repr() - old(Repr()))
      ensures View() == QueryTree.Apply(old(View()), Op.Prepare(clauses))
    {
      var selector := Empty();
      sql := Append(selector, clauses);
    }
  }
}
