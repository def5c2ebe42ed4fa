/** What bulk create guarantees, for builders whose hooks forward, and for weaker hooks. */
module BulkTheorems {
  import opened Wrappers
  import opened BulkCreate

  // After its one call the hook only edits, and returns what the call returned.
  ghost predicate Returns<M, E>(p: Program<M, E>)
  {
    match p
    case Return(reply) => reply.Last?
    case Edit(_, rest) => Returns(rest)
    case Branch(_, yes, no) => Returns(yes) && Returns(no)
    case Next(_, _) => false
  }

  // A forwarding hook refuses with an error of its own, or calls the next mutator once and
  // returns what it returned. It may edit the mutation before and after, and decide on it.
  ghost predicate Forwards<M, E>(p: Program<M, E>)
  {
    match p
    case Return(reply) => reply.Failure?
    case Edit(_, rest) => Forwards(rest)
    case Branch(_, yes, no) => Forwards(yes) && Forwards(no)
    case Next(ok, failed) => Returns(ok) && Returns(failed)
  }

  ghost predicate AllForward<M, E>(hooks: seq<seq<Program<M, E>>>)
  {
    forall i, h | 0 <= i < |hooks| && 0 <= h < |hooks[i]| :: Forwards(hooks[i][h])
  }

  // What arrives behind hooks: the fields they pass on, or the refusal of one of them.
  datatype Arrival<+M, +E> = Arrival(fields: M, refusal: Option<E>)

  // What one hook passes on.
  function Passed<M, E>(p: Program<M, E>, m: M): Arrival<M, E>
  {
    match p
    case Edit(f, rest) => Passed(rest, f(m))
    case Branch(test, yes, no) => Passed(if test(m) then yes else no, m)
    case Return(Failure(e)) => Arrival(m, Some(e))
    case _ => Arrival(m, None)
  }

  // What arrives at the core, from hook h inwards.
  function Reach<M, E>(hooks: seq<Program<M, E>>, h: nat, m: M): Arrival<M, E>
    requires h <= |hooks|
    decreases |hooks| - h, 0
  {
    if h == |hooks| then Arrival(m, None) else ReachFrom(hooks, h + 1, Passed(hooks[h], m))
  }

  function ReachFrom<M, E>(hooks: seq<Program<M, E>>, h: nat, a: Arrival<M, E>): Arrival<M, E>
    requires h <= |hooks|
    decreases |hooks| - h, 1
  {
    if a.refusal.Some? then a else Reach(hooks, h, a.fields)
  }

  // Why a builder is stopped before its row is inserted, if it is: a hook refused it, or check.
  function Stopped<M, S, N, D, E>(job: Job<M, S, N, D, E>, a: Arrival<M, E>): Option<E>
  {
    if a.refusal.Some? then a.refusal else job.check(a.fields)
  }

  // The first builder that is stopped, from builder i on.
  function FirstError<M, S, N, D, E>(job: Job<M, S, N, D, E>, reached: seq<Arrival<M, E>>, i: nat): Option<E>
    requires i <= |reached|
    decreases |reached| - i
  {
    if i == |reached| then None
    else if Stopped(job, reached[i]).Some? then Stopped(job, reached[i])
    else FirstError(job, reached, i + 1)
  }

  function SpecsOf<M, S, N, D, E>(job: Job<M, S, N, D, E>, reached: seq<Arrival<M, E>>): (specs: seq<S>)
    ensures |specs| == |reached| && forall j | 0 <= j < |reached| :: specs[j] == job.spec(reached[j].fields)
  {
    seq(|reached|, j requires 0 <= j < |reached| => job.spec(reached[j].fields))
  }

  // Mutation j is as before: no ID assigned, not marked done.
  ghost predicate Untouched<M, S, N, D>(s: State<M, S, N, D>, t: State<M, S, N, D>)
  {
    |t.slots| == |s.slots|
    && forall j | 0 <= j < |s.slots| :: t.slots[j].id == s.slots[j].id && t.slots[j].done == s.slots[j].done
  }

  // Slot j is complete: the node and the mutation carry the ID the insert assigned to it.
  ghost predicate Complete<M, S, N, D, E>(
    job: Job<M, S, N, D, E>, reached: seq<Arrival<M, E>>, t: State<M, S, N, D>, ids: seq<int>, j: nat)
    requires j < |t.slots| && j < |reached| && j < |ids|
  {
    && t.slots[j].done && t.slots[j].id == Some(ids[j])
    && t.slots[j].node == Some(job.withID(job.node(reached[j].fields), ids[j]))
    && t.slots[j].spec == Some(job.spec(reached[j].fields))
  }

  // How a run of the mutators from i on ends, when every hook forwards.
  ghost predicate Ends<M, S, N, D, E>(
    job: Job<M, S, N, D, E>, reached: seq<Arrival<M, E>>, i: nat, s: State<M, S, N, D>, t: State<M, S, N, D>,
    r: Answer<E>)
    requires Fits(job, s) && Fits(job, t) && |reached| == |job.hooks| && i <= |reached|
  {
    match FirstError(job, reached, i)
    case Some(e) => r == Failed(e) && t.store == s.store && t.batches == s.batches && Untouched(s, t)
    case None =>
      match Batch(job.create, s.store, SpecsOf(job, reached))
      case Err(e) =>
        && r == Failed(e) && t.store == s.store && Untouched(s, t)
        && t.batches == s.batches + [(SpecsOf(job, reached), false)]
      case Ok((store, ids)) =>
        && r == Done && t.store == store && t.batches == s.batches + [(SpecsOf(job, reached), true)]
        && (forall j | i <= j < |reached| :: Complete(job, reached, t, ids, j))
        && forall j | 0 <= j < |reached| :: t.slots[j].specID == Some(ids[j])
  }

  // The fields each core will see, with hook h of builder i about to run.
  ghost predicate Reaches<M, S, N, D, E>(
    job: Job<M, S, N, D, E>, reached: seq<Arrival<M, E>>, i: nat, s: State<M, S, N, D>)
    requires Fits(job, s)
  {
    && |reached| == |job.hooks|
    && (forall j | 0 <= j < i && j < |reached| :: s.slots[j].spec == Some(job.spec(reached[j].fields)))
    && forall j | i < j < |reached| :: reached[j] == Reach(job.hooks[j], 0, s.slots[j].fields)
  }

  // What follows the call edits the fields of its own builder, and nothing else.
  ghost predicate OnlyFields<M, S, N, D>(i: nat, s: State<M, S, N, D>, t: State<M, S, N, D>)
  {
    && |t.slots| == |s.slots| && t.store == s.store && t.batches == s.batches
    && (forall j | 0 <= j < |s.slots| && j != i :: t.slots[j] == s.slots[j])
    && (i < |s.slots| ==> t.slots[i] == s.slots[i].(fields := t.slots[i].fields))
  }

  lemma {:induction false} AfterTheCall<M, S, N, D, E>(
    job: Job<M, S, N, D, E>, i: nat, h: nat, p: Program<M, E>, last: Answer<E>, s: State<M, S, N, D>)
    requires i < |job.hooks| && h < |job.hooks[i]| && Fits(job, s) && Filled(s.slots, i)
    requires Returns(p)
    ensures RunProgram(job, i, h, p, last, s).1 == last
    ensures OnlyFields(i, s, RunProgram(job, i, h, p, last, s).0)
    decreases p
  {
    match p
    case Return(_) =>
    case Edit(f, rest) => AfterTheCall(job, i, h, rest, last, EditFields(s, i, f));
    case Branch(test, yes, no) => AfterTheCall(job, i, h, if test(s.slots[i].fields) then yes else no, last, s);
    case Next(_, _) =>
  }

  // Editing fields afterwards does not change how the run ended.
  lemma EndsKept<M, S, N, D, E>(
    job: Job<M, S, N, D, E>, reached: seq<Arrival<M, E>>, i: nat, s: State<M, S, N, D>, t: State<M, S, N, D>,
    u: State<M, S, N, D>, r: Answer<E>)
    requires Fits(job, s) && Fits(job, t) && |reached| == |job.hooks| && i < |reached|
    requires Ends(job, reached, i, s, t, r) && OnlyFields(i, t, u)
    ensures Ends(job, reached, i, s, u, r)
  {
    forall j | 0 <= j < |t.slots|
      ensures u.slots[j].id == t.slots[j].id && u.slots[j].done == t.slots[j].done
      ensures u.slots[j].specID == t.slots[j].specID
      ensures u.slots[j].node == t.slots[j].node && u.slots[j].spec == t.slots[j].spec
    {
      if j != i {
        assert u.slots[j] == t.slots[j];
      }
    }
    if r.Done? {
      var ids := Batch(job.create, s.store, SpecsOf(job, reached)).value.1;
      forall j | i <= j < |reached| ensures Complete(job, reached, u, ids, j) {
        assert Complete(job, reached, t, ids, j);
      }
    }
  }

  // The core of builder i completes its slot once the mutators after it have succeeded.
  lemma FinishCompletes<M, S, N, D, E>(
    job: Job<M, S, N, D, E>, reached: seq<Arrival<M, E>>, i: nat, s: State<M, S, N, D>, t: State<M, S, N, D>)
    requires Fits(job, s) && Fits(job, t) && |reached| == |job.hooks| && i < |reached|
    requires Ends(job, reached, i + 1, s, t, Done)
    requires t.slots[i].node == Some(job.node(reached[i].fields))
    requires t.slots[i].spec == Some(job.spec(reached[i].fields))
    requires Stopped(job, reached[i]).None?
    ensures Ends(job, reached, i, s, Finish(job, i, t), Done)
  {
    var ids := Batch(job.create, s.store, SpecsOf(job, reached)).value.1;
    var u := Finish(job, i, t);
    forall j | i <= j < |reached| ensures Complete(job, reached, u, ids, j) {
      if j != i {
        assert u.slots[j] == t.slots[j] && Complete(job, reached, t, ids, j);
      }
    }
  }

  // Filling slot i changes neither the database nor any mutation's ID or done flag.
  lemma EndsFromFilled<M, S, N, D, E>(
    job: Job<M, S, N, D, E>, reached: seq<Arrival<M, E>>, i: nat, s: State<M, S, N, D>, filled: State<M, S, N, D>,
    t: State<M, S, N, D>, r: Answer<E>)
    requires Fits(job, s) && Fits(job, filled) && Fits(job, t) && |reached| == |job.hooks| && i <= |reached|
    requires filled.store == s.store && filled.batches == s.batches && Untouched(s, filled)
    requires Ends(job, reached, i, filled, t, r)
    ensures Ends(job, reached, i, s, t, r)
  {
  }

  lemma {:induction false} HooksForward<M, S, N, D, E>(
    job: Job<M, S, N, D, E>, reached: seq<Arrival<M, E>>, i: nat, h: nat, s: State<M, S, N, D>)
    requires i < |job.hooks| && h <= |job.hooks[i]| && Fits(job, s) && Filled(s.slots, i)
    requires AllForward(job.hooks) && Reaches(job, reached, i, s)
    requires reached[i] == Reach(job.hooks[i], h, s.slots[i].fields)
    ensures Ends(job, reached, i, s, RunHooks(job, i, h, s).0, RunHooks(job, i, h, s).1)
    decreases |job.hooks| - i, |job.hooks[i]| - h, 2
  {
    if h == |job.hooks[i]| {
      CoreForwards(job, reached, i, s);
    } else {
      ProgramForwards(job, reached, i, h, job.hooks[i][h], Done, s);
    }
  }

  lemma {:induction false} ProgramForwards<M, S, N, D, E>(
    job: Job<M, S, N, D, E>, reached: seq<Arrival<M, E>>, i: nat, h: nat, p: Program<M, E>, last: Answer<E>,
    s: State<M, S, N, D>)
    requires i < |job.hooks| && h < |job.hooks[i]| && Fits(job, s) && Filled(s.slots, i)
    requires AllForward(job.hooks) && Reaches(job, reached, i, s)
    requires Forwards(p) && reached[i] == ReachFrom(job.hooks[i], h + 1, Passed(p, s.slots[i].fields))
    ensures Ends(job, reached, i, s, RunProgram(job, i, h, p, last, s).0, RunProgram(job, i, h, p, last, s).1)
    decreases |job.hooks| - i, |job.hooks[i]| - h, 0, p
  {
    match p
    case Return(_) =>
    case Edit(f, rest) =>
      ProgramForwards(job, reached, i, h, rest, last, EditFields(s, i, f));
    case Branch(test, yes, no) =>
      ProgramForwards(job, reached, i, h, if test(s.slots[i].fields) then yes else no, last, s);
    case Next(ok, failed) =>
      HooksForward(job, reached, i, h + 1, s);
      var (t, result) := RunHooks(job, i, h + 1, s);
      var after := if result.Done? then ok else failed;
      AfterTheCall(job, i, h, after, result, t);
      EndsKept(job, reached, i, s, t, RunProgram(job, i, h, after, result, t).0, result);
  }

  lemma {:induction false} CoreForwards<M, S, N, D, E>(
    job: Job<M, S, N, D, E>, reached: seq<Arrival<M, E>>, i: nat, s: State<M, S, N, D>)
    requires i < |job.hooks| && Fits(job, s) && Filled(s.slots, i)
    requires AllForward(job.hooks) && Reaches(job, reached, i, s) && reached[i] == Arrival(s.slots[i].fields, None)
    ensures Ends(job, reached, i, s, RunCore(job, i, s).0, RunCore(job, i, s).1)
    decreases |job.hooks| - i, 0, 1
  {
    var slot := s.slots[i];
    if job.check(slot.fields).None? {
      var filled := Fill(job, i, s);
      var (t, r) := RunNext(job, i, filled);
      NextForwards(job, reached, i, filled);
      EndsFromFilled(job, reached, i + 1, s, filled, t, r);
      if r.Done? {
        FinishCompletes(job, reached, i, s, t);
      }
    }
  }

  // With the slots up to i filled, the rest of the chain or the batch.
  lemma {:induction false} NextForwards<M, S, N, D, E>(
    job: Job<M, S, N, D, E>, reached: seq<Arrival<M, E>>, i: nat, filled: State<M, S, N, D>)
    requires i < |job.hooks| && Fits(job, filled) && Filled(filled.slots, i + 1)
    requires AllForward(job.hooks) && |reached| == |job.hooks|
    requires forall j | 0 <= j <= i :: filled.slots[j].spec == Some(job.spec(reached[j].fields))
    requires forall j | i < j < |reached| :: reached[j] == Reach(job.hooks[j], 0, filled.slots[j].fields)
    ensures Ends(job, reached, i + 1, filled, RunNext(job, i, filled).0, RunNext(job, i, filled).1)
    decreases |job.hooks| - i, 0, 0
  {
    if i < |job.hooks| - 1 {
      HooksForward(job, reached, i + 1, 0, filled);
    } else {
      assert Specs(filled.slots) == SpecsOf(job, reached);
    }
  }
}
