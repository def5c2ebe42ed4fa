/** The bulk builder in its own form: shared arrays, mutators that fill them, and Save. */
module BulkBuilder {
  import opened Wrappers
  import opened BulkCreate
  import opened BulkSave

  // A mutation, and a create spec with the ID the driver puts in.
  datatype Mutation<+M> = Mutation(fields: M, id: Option<int>, done: bool)

  datatype Spec<+S> = Spec(record: S, id: Option<int>)

  class Database<!D, !S> {
    var store: D
    var batches: seq<(seq<S>, bool)>

    constructor (store: D)
      ensures this.store == store && batches == []
    {
      this.store := store;
      batches := [];
    }

    // BatchCreate: all rows or none; on success every spec has its ID.
    method BatchCreate<E>(create: (D, S) -> Result<(D, int), E>, specs: seq<S>) returns (r: Result<seq<int>, E>)
      modifies this
      ensures match Batch(create, old(store), specs)
        case Err(e) => r == Err(e) && store == old(store) && batches == old(batches) + [(specs, false)]
        case Ok((after, ids)) => r == Ok(ids) && store == after && batches == old(batches) + [(specs, true)]
    {
      var tx, ids, n := store, [], 0;
      while n < |specs|
        invariant n <= |specs|
        invariant Batch(create, store, specs[..n]) == Ok((tx, ids))
      {
        assert specs[..n + 1][..n] == specs[..n];
        match create(tx, specs[n])
        case Err(e) =>
          FailingPrefix(create, store, specs, n + 1);
          batches := batches + [(specs, false)];
          return Err(e);
        case Ok((next, id)) =>
          tx, ids, n := next, ids + [id], n + 1;
      }
      assert specs[..n] == specs;
      store, batches := tx, batches + [(specs, true)];
      return Ok(ids);
    }
  }

  // A batch fails with the error of its first failing insert.
  lemma {:induction false} FailingPrefix<D, S, E>(
    create: (D, S) -> Result<(D, int), E>, store: D, specs: seq<S>, n: nat)
    requires n <= |specs| && Batch(create, store, specs[..n]).Err?
    ensures Batch(create, store, specs) == Batch(create, store, specs[..n])
  {
    if n == |specs| {
      assert specs[..n] == specs;
    } else {
      assert specs[..|specs| - 1][..n] == specs[..n];
      FailingPrefix(create, store, specs[..|specs| - 1], n);
    }
  }

  // The view of one builder: its mutation, and its entries of the shared arrays.
  function SlotOf<M, S, N>(mutation: Mutation<M>, node: Option<N>, spec: Option<Spec<S>>): Slot<M, S, N>
  {
    Slot(mutation.fields, mutation.id, mutation.done, node,
         if spec.Some? then Some(spec.value.record) else None, if spec.Some? then spec.value.id else None)
  }

  function SpecRecords<S>(specs: seq<Option<Spec<S>>>): (records: seq<S>)
    requires forall j | 0 <= j < |specs| :: specs[j].Some?
    ensures |records| == |specs| && forall j | 0 <= j < |specs| :: records[j] == specs[j].value.record
  {
    seq(|specs|, j requires 0 <= j < |specs| && specs[j].Some? => specs[j].value.record)
  }

  /** The variables the mutators of one Save share. Mutator i is the method call Hooks(i, 0). */
  class Chain<!M, !S, !N, !D, E> {
    const job: Job<M, S, N, D, E>
    const mutations: array<Mutation<M>>
    const nodes: array<Option<N>>
    const specs: array<Option<Spec<S>>>
    const db: Database<D, S>

    constructor (job: Job<M, S, N, D, E>, mutations: array<Mutation<M>>, db: Database<D, S>)
      requires mutations.Length == |job.hooks|
      ensures Valid() && this.job == job && this.mutations == mutations && this.db == db
      ensures fresh(nodes) && fresh(specs)
      ensures forall j | 0 <= j < mutations.Length :: nodes[j] == None && specs[j] == None
    {
      this.job, this.mutations, this.db := job, mutations, db;
      this.nodes := new Option<N>[|job.hooks|](_ => None);
      this.specs := new Option<Spec<S>>[|job.hooks|](_ => None);
    }

    ghost predicate Valid()
    {
      && mutations.Length == nodes.Length == specs.Length == |job.hooks|
      && mutations as object != nodes && mutations as object != specs && nodes as object != specs
    }

    ghost function View(): (s: State<M, S, N, D>)
      requires Valid()
      reads mutations, nodes, specs, db
      ensures Fits(job, s)
    {
      State(seq(mutations.Length, j requires 0 <= j < mutations.Length && Valid() reads mutations, nodes, specs
                => SlotOf(mutations[j], nodes[j], specs[j])),
            db.store, db.batches)
    }

    // Hook h of builder i and what it wraps; past the last hook, the core.
    method Hooks(i: nat, h: nat) returns (r: Answer<E>)
      requires Valid() && i < |job.hooks| && h <= |job.hooks[i]| && Filled(View().slots, i)
      modifies mutations, nodes, specs, db
      ensures (View(), r) == RunHooks(job, i, h, old(View()))
      decreases |job.hooks| - i, |job.hooks[i]| - h, 2
    {
      if h == |job.hooks[i]| {
        r := Core(i);
      } else {
        r := Hook(i, h, job.hooks[i][h], Done);
      }
    }

    method Hook(i: nat, h: nat, p: Program<M, E>, last: Answer<E>) returns (r: Answer<E>)
      requires Valid() && i < |job.hooks| && h < |job.hooks[i]| && Filled(View().slots, i)
      modifies mutations, nodes, specs, db
      ensures (View(), r) == RunProgram(job, i, h, p, last, old(View()))
      decreases |job.hooks| - i, |job.hooks[i]| - h, 0, p
    {
      match p
      case Return(reply) =>
        match reply {
          case Success => r := Done;
          case Failure(e) => r := Failed(e);
          case Last => r := last;
        }
      case Edit(f, rest) =>
        ghost var s := View();
        mutations[i] := mutations[i].(fields := f(mutations[i].fields));
        assert View() == EditFields(s, i, f);
        r := Hook(i, h, rest, last);
      case Branch(test, yes, no) =>
        assert View().slots[i].fields == mutations[i].fields;
        r := Hook(i, h, if test(mutations[i].fields) then yes else no, last);
      case Next(ok, failed) =>
        var result := Hooks(i, h + 1);
        r := Hook(i, h, if result.Done? then ok else failed, result);
    }

    method Core(i: nat) returns (r: Answer<E>)
      requires Valid() && i < |job.hooks| && Filled(View().slots, i)
      modifies mutations, nodes, specs, db
      ensures (View(), r) == RunCore(job, i, old(View()))
      decreases |job.hooks| - i, 0, 1
    {
      ghost var s := View();
      var invalid := job.check(mutations[i].fields);
      if invalid.Some? {
        return Failed(invalid.value);
      }
      nodes[i] := Some(job.node(mutations[i].fields));
      specs[i] := Some(Spec(job.spec(mutations[i].fields), None));
      assert View() == Fill(job, i, s);
      if i < |job.hooks| - 1 {
        r := Hooks(i + 1, 0);
      } else {
        r := InsertAll();
      }
      ghost var t := View();
      assert (t, r) == RunNext(job, i, Fill(job, i, s));
      if r.Failed? {
        return;
      }
      Complete(i);
      assert View() == Finish(job, i, t);
    }

    method InsertAll() returns (r: Answer<E>)
      requires Valid() && Filled(View().slots, |job.hooks|)
      modifies specs, db
      ensures (View(), r) == RunBatch(job, old(View()))
    {
      ghost var s := View();
      forall j | 0 <= j < specs.Length ensures specs[..][j].Some? {
        assert s.slots[j].spec.Some?;
      }
      var records := SpecRecords(specs[..]);
      assert records == Specs(s.slots);
      var inserted := db.BatchCreate(job.create, records);
      match inserted
      case Err(e) =>
        assert View().slots == s.slots;
        return Failed(e);
      case Ok(ids) =>
        forall j | 0 <= j < specs.Length {
          specs[j] := Some(Spec(records[j], Some(ids[j])));
        }
        assert View().slots == RunBatch(job, s).0.slots;
        return Done;
    }

    method Complete(i: nat)
      requires Valid() && i < |job.hooks|
      modifies mutations, nodes
      ensures View() == Finish(job, i, old(View()))
    {
      ghost var s := View();
      if specs[i].Some? && specs[i].value.id.Some? && nodes[i].Some? {
        nodes[i] := Some(job.withID(nodes[i].value, specs[i].value.id.value));
        mutations[i] := Mutation(mutations[i].fields, specs[i].value.id, true);
      } else {
        mutations[i] := Mutation(mutations[i].fields, Some(0), true);
      }
      assert View().slots == Finish(job, i, s).slots;
    }
  }

  datatype Outcome<+N, +E> = Saved(nodes: seq<Option<N>>) | Rejected(error: E) | Panicked

  // The defaults of builder i; what is set before an error stays set, the error is dropped.
  function Default<M, E>(defaults: (nat, M) -> (M, Option<E>), i: nat, m: Mutation<M>): Mutation<M>
  {
    m.(fields := defaults(i, m.fields).0)
  }

  // Hooks that are all there; calling a nil hook panics.
  predicate NoNil<M, E>(hooks: seq<seq<Option<Program<M, E>>>>)
  {
    forall i, h | 0 <= i < |hooks| && 0 <= h < |hooks[i]| :: hooks[i][h].Some?
  }

  function AllPresent<M, E>(hooks: seq<seq<Option<Program<M, E>>>>): (present: seq<seq<Program<M, E>>>)
    requires NoNil(hooks)
    ensures |present| == |hooks| && forall i | 0 <= i < |hooks| :: present[i] == Values(hooks[i])
  {
    seq(|hooks|, i requires 0 <= i < |hooks| && NoNil(hooks) => Values(hooks[i]))
  }

  // The state the chain starts from: defaulted mutations and empty arrays.
  function Begin<M, S, N, D, E>(
    defaults: (nat, M) -> (M, Option<E>), mutations: seq<Mutation<M>>, store: D,
    batches: seq<(seq<S>, bool)>):
    (s: State<M, S, N, D>)
    ensures |s.slots| == |mutations| && s.store == store && s.batches == batches
    ensures forall j | 0 <= j < |mutations| ::
              s.slots[j] ==
              Slot(defaults(j, mutations[j].fields).0, mutations[j].id, mutations[j].done, None, None, None)
  {
    State(
      seq(|mutations|, j requires 0 <= j < |mutations| => SlotOf(Default(defaults, j, mutations[j]), None, None)),
      store, batches)
  }

  /** Save: an error of CreateBulk comes first; then every builder takes its defaults, whose
      error is dropped, and wraps its hooks; then mutator 0 runs. */
  method Save<M, S, N, D, E>(
    err: Option<E>, config: Job<M, S, N, D, E>, defaults: (nat, M) -> (M, Option<E>),
    hooks: seq<seq<Option<Program<M, E>>>>,
    mutations: array<Mutation<M>>, db: Database<D, S>)
    returns (outcome: Outcome<N, E>)
    requires mutations.Length == |hooks|
    modifies mutations, db
    ensures err.Some? ==> outcome == Rejected(err.value) && mutations[..] == old(mutations[..])
    ensures err.None? && !NoNil(hooks) ==> outcome == Panicked
    ensures outcome == Panicked || err.Some? ==> db.store == old(db.store) && db.batches == old(db.batches)
    ensures err.None? && NoNil(hooks) ==>
              var job := config.(hooks := AllPresent(hooks));
              var (t, r) := SaveAll(job, Begin(defaults, old(mutations[..]), old(db.store), old(db.batches)));
              && db.store == t.store && db.batches == t.batches
              && (forall j | 0 <= j < |hooks| ::
                    mutations[j] == Mutation(t.slots[j].fields, t.slots[j].id, t.slots[j].done))
              && (r.Failed? ==> outcome == Rejected(r.error))
              && (r.Done? ==>
                    && outcome.Saved? && |outcome.nodes| == |hooks|
                    && forall j | 0 <= j < |hooks| :: outcome.nodes[j] == t.slots[j].node)
  {
    if err.Some? {
      return Rejected(err.value);
    }
    ghost var s := Begin(defaults, mutations[..], db.store, db.batches);
    var i := 0;
    while i < |hooks|
      invariant i <= |hooks|
      invariant forall j | 0 <= j < i :: mutations[j] == Default(defaults, j, old(mutations[j]))
      invariant forall j | i <= j < |hooks| :: mutations[j] == old(mutations[j])
      invariant db.store == old(db.store) && db.batches == old(db.batches)
      invariant NoNil(hooks[..i])
    {
      mutations[i] := Default(defaults, i, mutations[i]);
      if exists h | 0 <= h < |hooks[i]| :: hooks[i][h].None? {
        return Panicked;
      }
      i := i + 1;
    }
    assert hooks[..i] == hooks;
    var chain := new Chain<M, S, N, D, E>(config.(hooks := AllPresent(hooks)), mutations, db);
    assert chain.View().slots == s.slots;
    if |hooks| > 0 {
      var r := chain.Hooks(0, 0);
      if r.Failed? {
        return Rejected(r.error);
      }
    }
    return Saved(chain.nodes[..]);
  }
}
