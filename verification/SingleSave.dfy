/** Saving one builder, and saving builders one after the other, against the bulk save. */
module SingleSave {
  import opened Wrappers
  import opened BulkCreate
  import opened BulkTheorems
  import opened BulkSave

  // One Save: the mutation, the node it returns, and the database.
  datatype Solo<+M, +N, +D> = Solo(fields: M, id: Option<int>, done: bool, node: Option<N>, store: D)

  // withHooks around sqlSave, from hook h inwards.
  function SoloHooks<M, S, N, D, E>(job: Job<M, S, N, D, E>, hooks: seq<Program<M, E>>, h: nat, s: Solo<M, N, D>):
    (Solo<M, N, D>, Answer<E>)
    requires h <= |hooks|
    decreases |hooks| - h, 1
  {
    if h == |hooks| then SqlSave(job, s) else SoloProgram(job, hooks, h, hooks[h], Done, s)
  }

  function SoloProgram<M, S, N, D, E>(
    job: Job<M, S, N, D, E>, hooks: seq<Program<M, E>>, h: nat, p: Program<M, E>, last: Answer<E>, s: Solo<M, N, D>):
    (Solo<M, N, D>, Answer<E>)
    requires h < |hooks|
    decreases |hooks| - h, 0, p
  {
    match p
    case Return(reply) => (s, match reply case Success => Done case Failure(e) => Failed(e) case Last => last)
    case Edit(f, rest) => SoloProgram(job, hooks, h, rest, last, s.(fields := f(s.fields)))
    case Branch(test, yes, no) => SoloProgram(job, hooks, h, if test(s.fields) then yes else no, last, s)
    case Next(ok, failed) =>
      var (t, result) := SoloHooks(job, hooks, h + 1, s);
      SoloProgram(job, hooks, h, if result.Done? then ok else failed, result, t)
  }

  function SqlSave<M, S, N, D, E>(job: Job<M, S, N, D, E>, s: Solo<M, N, D>): (Solo<M, N, D>, Answer<E>)
  {
    match job.check(s.fields)
    case Some(e) => (s, Failed(e))
    case None =>
      match job.create(s.store, job.spec(s.fields))
      case Err(e) => (s, Failed(e))
      case Ok((store, id)) =>
        (s.(id := Some(id), done := true, node := Some(job.withID(job.node(s.fields), id)), store := store), Done)
  }

  // How a save with forwarding hooks ends, from what arrives at the core.
  ghost predicate SoloEnds<M, S, N, D, E>(
    job: Job<M, S, N, D, E>, a: Arrival<M, E>, s: Solo<M, N, D>, t: Solo<M, N, D>, r: Answer<E>)
  {
    match Stopped(job, a)
    case Some(e) => r == Failed(e) && t == s.(fields := t.fields)
    case None =>
      match job.create(s.store, job.spec(a.fields))
      case Err(e) => r == Failed(e) && t == s.(fields := t.fields)
      case Ok((store, id)) =>
        r == Done && t == Solo(t.fields, Some(id), true, Some(job.withID(job.node(a.fields), id)), store)
  }

  lemma {:induction false} SoloAfterTheCall<M, S, N, D, E>(
    job: Job<M, S, N, D, E>, hooks: seq<Program<M, E>>, h: nat, p: Program<M, E>, last: Answer<E>, s: Solo<M, N, D>)
    requires h < |hooks| && Returns(p)
    ensures var (t, r) := SoloProgram(job, hooks, h, p, last, s); r == last && t == s.(fields := t.fields)
    decreases p
  {
    match p
    case Return(_) =>
    case Edit(f, rest) => SoloAfterTheCall(job, hooks, h, rest, last, s.(fields := f(s.fields)));
    case Branch(test, yes, no) => SoloAfterTheCall(job, hooks, h, if test(s.fields) then yes else no, last, s);
    case Next(_, _) =>
  }

  lemma {:induction false} SoloForwards<M, S, N, D, E>(
    job: Job<M, S, N, D, E>, hooks: seq<Program<M, E>>, h: nat, s: Solo<M, N, D>)
    requires h <= |hooks| && forall k | 0 <= k < |hooks| :: Forwards(hooks[k])
    ensures var (t, r) := SoloHooks(job, hooks, h, s); SoloEnds(job, Reach(hooks, h, s.fields), s, t, r)
    decreases |hooks| - h, 1
  {
    if h < |hooks| {
      SoloProgramForwards(job, hooks, h, hooks[h], Done, s);
    }
  }

  lemma {:induction false} SoloProgramForwards<M, S, N, D, E>(
    job: Job<M, S, N, D, E>, hooks: seq<Program<M, E>>, h: nat, p: Program<M, E>, last: Answer<E>, s: Solo<M, N, D>)
    requires h < |hooks| && (forall k | 0 <= k < |hooks| :: Forwards(hooks[k])) && Forwards(p)
    ensures var (t, r) := SoloProgram(job, hooks, h, p, last, s);
      SoloEnds(job, ReachFrom(hooks, h + 1, Passed(p, s.fields)), s, t, r)
    decreases |hooks| - h, 0, p
  {
    match p
    case Return(_) =>
    case Edit(f, rest) =>
      SoloProgramForwards(job, hooks, h, rest, last, s.(fields := f(s.fields)));
    case Branch(test, yes, no) =>
      SoloProgramForwards(job, hooks, h, if test(s.fields) then yes else no, last, s);
    case Next(ok, failed) =>
      SoloForwards(job, hooks, h + 1, s);
      var (t, result) := SoloHooks(job, hooks, h + 1, s);
      SoloAfterTheCall(job, hooks, h, if result.Done? then ok else failed, result, t);
  }

  function FieldsOf<M, S, N>(slots: seq<Slot<M, S, N>>): (fields: seq<M>)
    ensures |fields| == |slots| && forall j | 0 <= j < |slots| :: fields[j] == slots[j].fields
  {
    seq(|slots|, j requires 0 <= j < |slots| => slots[j].fields)
  }

  // Saving the builders in order, stopping at the first error: the nodes saved so far, the
  // database, and how it ended.
  function SaveEach<M, S, N, D, E>(job: Job<M, S, N, D, E>, hooks: seq<seq<Program<M, E>>>, fields: seq<M>, store: D):
    (seq<N>, D, Answer<E>)
    requires |fields| == |hooks|
  {
    if fields == [] then ([], store, Done)
    else
      var n := |fields| - 1;
      SaveNext(job, hooks[n], fields[n], SaveEach(job, hooks[..n], fields[..n], store))
  }

  // The next builder is saved unless an earlier one failed.
  function SaveNext<M, S, N, D, E>(
    job: Job<M, S, N, D, E>, hooks: seq<Program<M, E>>, fields: M, earlier: (seq<N>, D, Answer<E>)):
    (seq<N>, D, Answer<E>)
  {
    if earlier.2.Failed? then earlier
    else
      var (t, last) := SoloHooks(job, hooks, 0, Solo(fields, None, false, None, earlier.1));
      if last.Done? && t.node.Some? then (earlier.0 + [t.node.value], t.store, last) else (earlier.0, t.store, last)
  }

  // The given builders passed their checks, their rows are in the database, and the nodes
  // carry the assigned IDs.
  ghost predicate RowsSaved<M, S, N, D, E>(
    job: Job<M, S, N, D, E>, reached: seq<Arrival<M, E>>, store: D, nodes: seq<N>, after: D)
    requires |nodes| == |reached|
  {
    var batch := Batch(job.create, store, SpecsOf(job, reached));
    && AllPass(job, reached)
    && batch.Ok? && after == batch.value.0
    && (forall j | 0 <= j < |nodes| :: nodes[j] == job.withID(job.node(reached[j].fields), batch.value.1[j]))
  }

  // The builder is the one that fails: stopped by a hook or its check, or in its insert.
  ghost predicate FailsAt<M, S, N, D, E>(job: Job<M, S, N, D, E>, a: Arrival<M, E>, before: D, e: E)
  {
    || Stopped(job, a) == Some(e)
    || (Stopped(job, a).None? && job.create(before, job.spec(a.fields)) == Err(e))
  }

  ghost predicate SavedPrefix<M, S, N, D, E>(
    job: Job<M, S, N, D, E>, reached: seq<Arrival<M, E>>, store: D, nodes: seq<N>, after: D, r: Answer<E>)
  {
    && |nodes| <= |reached|
    && RowsSaved(job, reached[..|nodes|], store, nodes, after)
    && (r.Done? ==> |nodes| == |reached|)
    && (r.Failed? ==> |nodes| < |reached| && FailsAt(job, reached[|nodes|], after, r.error))
  }

  lemma {:induction false} BatchFails<D, S, E>(create: (D, S) -> Result<(D, int), E>, store: D, specs: seq<S>, k: nat)
    requires k <= |specs| && Batch(create, store, specs[..k]).Err?
    ensures Batch(create, store, specs).Err?
  {
    if k == |specs| {
      assert specs[..k] == specs;
    } else {
      assert specs[..|specs| - 1][..k] == specs[..k];
      BatchFails(create, store, specs[..|specs| - 1], k);
    }
  }

  lemma BatchAppend<D, S, E>(create: (D, S) -> Result<(D, int), E>, store: D, specs: seq<S>, spec: S)
    ensures Batch(create, store, specs + [spec]) ==
            match Batch(create, store, specs)
            case Err(e) => Err(e)
            case Ok((before, ids)) =>
              match create(before, spec)
              case Err(e) => Err(e)
              case Ok((after, id)) => Ok((after, ids + [id]))
  {
    assert (specs + [spec])[..|specs|] == specs;
  }

  // One more builder after others that were saved without error.
  lemma SavedNext<M, S, N, D, E>(
    job: Job<M, S, N, D, E>, reached: seq<Arrival<M, E>>, a: Arrival<M, E>, store: D, nodes: seq<N>, before: D,
    after: D, id: int)
    requires |nodes| == |reached| && RowsSaved(job, reached, store, nodes, before)
    requires Stopped(job, a).None? && job.create(before, job.spec(a.fields)) == Ok((after, id))
    ensures RowsSaved(job, reached + [a], store, nodes + [job.withID(job.node(a.fields), id)], after)
  {
    assert SpecsOf(job, reached + [a]) == SpecsOf(job, reached) + [job.spec(a.fields)];
    BatchAppend(job.create, store, SpecsOf(job, reached), job.spec(a.fields));
  }

  // After a failure nothing more is saved.
  lemma FailureStays<M, S, N, D, E>(
    job: Job<M, S, N, D, E>, reached: seq<Arrival<M, E>>, a: Arrival<M, E>, store: D, nodes: seq<N>, after: D,
    r: Answer<E>)
    requires r.Failed? && SavedPrefix(job, reached, store, nodes, after, r)
    ensures SavedPrefix(job, reached + [a], store, nodes, after, r)
  {
    assert (reached + [a])[..|nodes|] == reached[..|nodes|];
    assert (reached + [a])[|nodes|] == reached[|nodes|];
  }

  // One more builder, after others that were all saved.
  lemma {:induction false} OneMoreSaves<M, S, N, D, E>(
    job: Job<M, S, N, D, E>, hooks: seq<Program<M, E>>, fields: M, reached: seq<Arrival<M, E>>, store: D,
    nodes: seq<N>, before: D)
    requires forall k | 0 <= k < |hooks| :: Forwards(hooks[k])
    requires |nodes| == |reached| && RowsSaved(job, reached, store, nodes, before)
    ensures var (more, after, r) := SaveNext(job, hooks, fields, (nodes, before, Done));
      SavedPrefix(job, reached + [Reach(hooks, 0, fields)], store, more, after, r)
  {
    var a := Reach(hooks, 0, fields);
    var s: Solo<M, N, D> := Solo(fields, None, false, None, before);
    SoloForwards(job, hooks, 0, s);
    var (u, last) := SoloHooks(job, hooks, 0, s);
    if last.Done? {
      SavedNext(job, reached, a, store, nodes, before, u.store, u.id.value);
      AllSaved(job, reached + [a], store, nodes + [job.withID(job.node(a.fields), u.id.value)], u.store);
    } else {
      FailsNext(job, reached, a, store, nodes, before, last.error);
    }
  }

  lemma AllSaved<M, S, N, D, E>(job: Job<M, S, N, D, E>, reached: seq<Arrival<M, E>>, store: D, nodes: seq<N>, after: D)
    requires |nodes| == |reached| && RowsSaved(job, reached, store, nodes, after)
    ensures SavedPrefix(job, reached, store, nodes, after, Done)
  {
    assert reached[..|nodes|] == reached;
  }

  lemma FailsNext<M, S, N, D, E>(
    job: Job<M, S, N, D, E>, reached: seq<Arrival<M, E>>, a: Arrival<M, E>, store: D, nodes: seq<N>, before: D, e: E)
    requires |nodes| == |reached| && RowsSaved(job, reached, store, nodes, before) && FailsAt(job, a, before, e)
    ensures SavedPrefix(job, reached + [a], store, nodes, before, Failed(e))
  {
    assert (reached + [a])[..|nodes|] == reached;
  }

  lemma {:induction false} NextSaves<M, S, N, D, E>(
    job: Job<M, S, N, D, E>, hooks: seq<Program<M, E>>, fields: M, reached: seq<Arrival<M, E>>, store: D,
    earlier: (seq<N>, D, Answer<E>))
    requires forall k | 0 <= k < |hooks| :: Forwards(hooks[k])
    requires SavedPrefix(job, reached, store, earlier.0, earlier.1, earlier.2)
    ensures var (nodes, after, r) := SaveNext(job, hooks, fields, earlier);
      SavedPrefix(job, reached + [Reach(hooks, 0, fields)], store, nodes, after, r)
  {
    if earlier.2.Failed? {
      FailureStays(job, reached, Reach(hooks, 0, fields), store, earlier.0, earlier.1, earlier.2);
    } else {
      assert reached[..|earlier.0|] == reached;
      OneMoreSaves(job, hooks, fields, reached, store, earlier.0, earlier.1);
    }
  }

  lemma {:induction false} EachSaves<M, S, N, D, E>(
    job: Job<M, S, N, D, E>, hooks: seq<seq<Program<M, E>>>, fields: seq<M>, reached: seq<Arrival<M, E>>, store: D)
    requires |fields| == |hooks| == |reached| && AllForward(hooks)
    requires forall j | 0 <= j < |fields| :: reached[j] == Reach(hooks[j], 0, fields[j])
    ensures var (nodes, after, r) := SaveEach(job, hooks, fields, store);
      SavedPrefix(job, reached, store, nodes, after, r)
  {
    if fields == [] {
      assert SpecsOf(job, reached[..0]) == [];
    } else {
      var n := |fields| - 1;
      EachSaves(job, hooks[..n], fields[..n], reached[..n], store);
      NextSaves(job, hooks[n], fields[n], reached[..n], store, SaveEach(job, hooks[..n], fields[..n], store));
      assert reached == reached[..n] + [reached[n]];
    }
  }

  // A builder that fails on its own makes the batch fail.
  lemma FailureSpoilsBatch<M, S, N, D, E>(
    job: Job<M, S, N, D, E>, reached: seq<Arrival<M, E>>, store: D, nodes: seq<N>, after: D, e: E)
    requires |nodes| < |reached| && RowsSaved(job, reached[..|nodes|], store, nodes, after)
    requires FailsAt(job, reached[|nodes|], after, e)
    ensures !AllPass(job, reached) || Batch(job.create, store, SpecsOf(job, reached)).Err?
  {
    var k := |nodes|;
    if Stopped(job, reached[k]).None? {
      var specs := SpecsOf(job, reached);
      assert specs[..k + 1] == SpecsOf(job, reached[..k]) + [specs[k]];
      BatchAppend(job.create, store, SpecsOf(job, reached[..k]), specs[k]);
      BatchFails(job.create, store, specs, k + 1);
    }
  }

  /** Bulk and one by one agree: with forwarding hooks, one succeeds exactly when the other
      does, and then they leave the same rows and return the same nodes in order. When they
      fail, the bulk save leaves the database as it was, while saving one by one leaves the
      rows of the builders before the failing one. */
  lemma BulkIsEach<M, S, N, D, E>(job: Job<M, S, N, D, E>, s: State<M, S, N, D>)
    requires Fits(job, s) && |job.hooks| > 0 && AllForward(job.hooks)
    ensures var (t, bulk) := SaveAll(job, s);
      var (nodes, after, each) := SaveEach(job, job.hooks, FieldsOf(s.slots), s.store);
      && (bulk.Done? <==> each.Done?)
      && (bulk.Done? ==>
            && t.store == after && |nodes| == |t.slots|
            && forall j | 0 <= j < |nodes| :: t.slots[j].node == Some(nodes[j]))
      && (bulk.Failed? ==>
            && t.store == s.store && |nodes| < |s.slots|
            && RowsSaved(job, ReachedBy(job, s.slots)[..|nodes|], s.store, nodes, after))
  {
    var reached, store := ReachedBy(job, s.slots), s.store;
    AllOrNothing(job, s);
    EachSaves(job, job.hooks, FieldsOf(s.slots), reached, store);
    var (nodes, after, each) := SaveEach(job, job.hooks, FieldsOf(s.slots), store);
    if each.Failed? {
      FailureSpoilsBatch(job, reached, store, nodes, after, each.error);
    } else {
      assert reached[..|reached|] == reached;
      var (t, bulk) := SaveAll(job, s);
      forall j | 0 <= j < |nodes| ensures t.slots[j].node == Some(nodes[j]) {
        assert Complete(job, reached, t, Batch(job.create, store, SpecsOf(job, reached)).value.1, j);
      }
    }
  }
}
