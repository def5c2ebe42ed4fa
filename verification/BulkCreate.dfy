/** Bulk create as a chain of mutators. Mutator i runs the hooks of builder i around a core
    that checks the builder, fills slot i of the shared arrays, and calls mutator i + 1; the
    last core issues the one batch insert.

    The entity is a parameter: M is what a mutation holds, S a create spec, N a node, D the
    database and E an error. */
module BulkCreate {
  import opened Wrappers

  /** What a hook does with the mutator it wraps: edit the mutation, decide on what the
      mutation holds, call the next mutator (any number of times, and go on by whether it
      failed), and finally return. */
  datatype Program<!M, E> =
    | Return(reply: Reply<E>)
    | Edit(f: M -> M, rest: Program<M, E>)
    | Branch(test: M -> bool, yes: Program<M, E>, no: Program<M, E>)
    | Next(ok: Program<M, E>, failed: Program<M, E>)

  // What a hook returns: success, an error of its own, or what the next mutator last returned.
  datatype Reply<+E> = Success | Failure(e: E) | Last

  datatype Answer<+E> = Done | Failed(error: E)

  // The code and configuration shared by all builders: the hooks of each builder, check,
  // the two results of createSpec, the assignment of an ID to a node, and CreateNode.
  datatype Job<!M, !S, !N, !D, E> = Job(
    hooks: seq<seq<Program<M, E>>>,
    check: M -> Option<E>,
    node: M -> N,
    spec: M -> S,
    withID: (N, int) -> N,
    create: (D, S) -> Result<(D, int), E>)

  // Slot i of one Save: the mutation of builder i (its fields, assigned ID and done flag),
  // the entries of the shared arrays nodes and specs, and the ID the driver put in the spec.
  datatype Slot<+M, +S, +N> = Slot(
    fields: M, id: Option<int>, done: bool, node: Option<N>, spec: Option<S>, specID: Option<int>)

  // The database, and every batch that was issued with whether it was accepted.
  datatype State<+M, +S, +N, +D> = State(slots: seq<Slot<M, S, N>>, store: D, batches: seq<(seq<S>, bool)>)

  ghost predicate Fits<M, S, N, D, E>(job: Job<M, S, N, D, E>, s: State<M, S, N, D>)
  {
    |s.slots| == |job.hooks|
  }

  // The specs before slot i are there.
  ghost predicate Filled<M, S, N>(slots: seq<Slot<M, S, N>>, i: nat)
  {
    forall j | 0 <= j < i && j < |slots| :: slots[j].spec.Some?
  }

  // Before slot i, at most the IDs that the driver puts into the specs have changed.
  ghost predicate KeepsBefore<M, S, N, D>(i: nat, s: State<M, S, N, D>, t: State<M, S, N, D>)
  {
    && |t.slots| == |s.slots|
    && forall j | 0 <= j < i && j < |s.slots| :: t.slots[j] == s.slots[j].(specID := t.slots[j].specID)
  }

  function Specs<M, S, N>(slots: seq<Slot<M, S, N>>): (specs: seq<S>)
    requires Filled(slots, |slots|)
    ensures |specs| == |slots| && forall j | 0 <= j < |slots| :: slots[j].spec == Some(specs[j])
  {
    seq(|slots|, j requires 0 <= j < |slots| && slots[j].spec.Some? => slots[j].spec.value)
  }

  /** BatchCreate: the specs are inserted in order within one transaction, so a failing
      insert leaves the database as it was. */
  function Batch<D, S, E>(create: (D, S) -> Result<(D, int), E>, store: D, specs: seq<S>):
    (r: Result<(D, seq<int>), E>)
    ensures r.Ok? ==> |r.value.1| == |specs|
  {
    if specs == [] then Ok((store, []))
    else
      match Batch(create, store, specs[..|specs| - 1])
      case Err(e) => Err(e)
      case Ok((before, ids)) =>
        match create(before, specs[|specs| - 1])
        case Err(e) => Err(e)
        case Ok((after, id)) => Ok((after, ids + [id]))
  }

  // Mutator i from its hook h on.
  function RunHooks<M, S, N, D, E>(job: Job<M, S, N, D, E>, i: nat, h: nat, s: State<M, S, N, D>):
    (r: (State<M, S, N, D>, Answer<E>))
    requires i < |job.hooks| && h <= |job.hooks[i]| && Fits(job, s) && Filled(s.slots, i)
    ensures Fits(job, r.0) && KeepsBefore(i, s, r.0)
    decreases |job.hooks| - i, |job.hooks[i]| - h, 2
  {
    if h == |job.hooks[i]| then RunCore(job, i, s)
    else RunProgram(job, i, h, job.hooks[i][h], Done, s)
  }

  // The rest of hook h of builder i, after the next mutator last returned `last`.
  function RunProgram<M, S, N, D, E>(
    job: Job<M, S, N, D, E>, i: nat, h: nat, p: Program<M, E>, last: Answer<E>, s: State<M, S, N, D>):
    (r: (State<M, S, N, D>, Answer<E>))
    requires i < |job.hooks| && h < |job.hooks[i]| && Fits(job, s) && Filled(s.slots, i)
    ensures Fits(job, r.0) && KeepsBefore(i, s, r.0)
    decreases |job.hooks| - i, |job.hooks[i]| - h, 0, p
  {
    match p
    case Return(reply) => (s, match reply case Success => Done case Failure(e) => Failed(e) case Last => last)
    case Edit(f, rest) => RunProgram(job, i, h, rest, last, EditFields(s, i, f))
    case Branch(test, yes, no) => RunProgram(job, i, h, if test(s.slots[i].fields) then yes else no, last, s)
    case Next(ok, failed) =>
      var (t, result) := RunHooks(job, i, h + 1, s);
      RunProgram(job, i, h, if result.Done? then ok else failed, result, t)
  }

  function EditFields<M, S, N, D>(s: State<M, S, N, D>, i: nat, f: M -> M): State<M, S, N, D>
    requires i < |s.slots|
  {
    s.(slots := s.slots[i := s.slots[i].(fields := f(s.slots[i].fields))])
  }

  // The innermost function of mutator i.
  function RunCore<M, S, N, D, E>(job: Job<M, S, N, D, E>, i: nat, s: State<M, S, N, D>):
    (r: (State<M, S, N, D>, Answer<E>))
    requires i < |job.hooks| && Fits(job, s) && Filled(s.slots, i)
    ensures Fits(job, r.0) && KeepsBefore(i, s, r.0)
    decreases |job.hooks| - i, 0, 1
  {
    var slot := s.slots[i];
    match job.check(slot.fields)
    case Some(e) => (s, Failed(e))
    case None =>
      var (t, result) := RunNext(job, i, Fill(job, i, s));
      if result.Failed? then (t, result) else (Finish(job, i, t), Done)
  }

  // createSpec fills slot i with a node and a spec that has no ID yet.
  function Fill<M, S, N, D, E>(job: Job<M, S, N, D, E>, i: nat, s: State<M, S, N, D>): (t: State<M, S, N, D>)
    requires i < |job.hooks| && Fits(job, s) && Filled(s.slots, i)
    ensures Fits(job, t) && KeepsBefore(i, s, t) && Filled(t.slots, i + 1) && t.slots[i].specID.None?
  {
    var slot := s.slots[i];
    s.(slots := s.slots[i :=
      slot.(node := Some(job.node(slot.fields)), spec := Some(job.spec(slot.fields)), specID := None)])
  }

  // The core calls mutator i + 1, or issues the batch when it is the last.
  function RunNext<M, S, N, D, E>(job: Job<M, S, N, D, E>, i: nat, s: State<M, S, N, D>):
    (r: (State<M, S, N, D>, Answer<E>))
    requires i < |job.hooks| && Fits(job, s) && Filled(s.slots, i + 1)
    ensures Fits(job, r.0) && KeepsBefore(i + 1, s, r.0)
    decreases |job.hooks| - i, 0, 0
  {
    if i < |job.hooks| - 1 then RunHooks(job, i + 1, 0, s) else RunBatch(job, s)
  }

  // The ID of the spec goes into the node and the mutation, and the mutation is done. The
  // mutation points at the node's ID, which is 0 when a hook skipped the insert.
  function Finish<M, S, N, D, E>(job: Job<M, S, N, D, E>, i: nat, s: State<M, S, N, D>): (t: State<M, S, N, D>)
    requires i < |job.hooks| && Fits(job, s)
    ensures Fits(job, t) && KeepsBefore(i, s, t)
  {
    var slot := s.slots[i];
    if slot.specID.Some? && slot.node.Some? then
      s.(slots := s.slots[i :=
        slot.(node := Some(job.withID(slot.node.value, slot.specID.value)), id := slot.specID, done := true)])
    else s.(slots := s.slots[i := slot.(id := Some(0), done := true)])
  }

  function RunBatch<M, S, N, D, E>(job: Job<M, S, N, D, E>, s: State<M, S, N, D>): (r: (State<M, S, N, D>, Answer<E>))
    requires Fits(job, s) && Filled(s.slots, |s.slots|)
    ensures Fits(job, r.0)
    ensures forall j | 0 <= j < |s.slots| :: r.0.slots[j] == s.slots[j].(specID := r.0.slots[j].specID)
  {
    var specs := Specs(s.slots);
    match Batch(job.create, s.store, specs)
    case Err(e) => (s.(batches := s.batches + [(specs, false)]), Failed(e))
    case Ok((store, ids)) =>
      (State(
         seq(|s.slots|, j requires 0 <= j < |s.slots| && |ids| == |s.slots| => s.slots[j].(specID := Some(ids[j]))),
         store,
         s.batches + [(specs, true)]),
       Done)
  }
}
