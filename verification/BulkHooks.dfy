/** How much of the bulk guarantee survives hooks that do not forward. */
module BulkHooks {
  import opened Wrappers
  import opened BulkCreate
  import opened BulkSave

  // How often a hook calls the next mutator, at most.
  function Calls<M, E>(p: Program<M, E>): nat
  {
    match p
    case Return(_) => 0
    case Edit(_, rest) => Calls(rest)
    case Branch(_, yes, no) => Larger(Calls(yes), Calls(no))
    case Next(ok, failed) => 1 + Larger(Calls(ok), Calls(failed))
  }

  function Larger(a: nat, b: nat): nat
  {
    if a < b then b else a
  }

  ghost predicate AtMostOneCall<M, E>(hooks: seq<seq<Program<M, E>>>)
  {
    forall i, h | 0 <= i < |hooks| && 0 <= h < |hooks[i]| :: Calls(hooks[i][h]) <= 1
  }

  // The batches issued between two states: earlier ones are kept, new ones insert every
  // builder's row, and there are at most `limit` of them.
  ghost predicate BatchesGrow<M, S, N, D>(n: nat, limit: Option<nat>, s: State<M, S, N, D>, t: State<M, S, N, D>)
  {
    && s.batches <= t.batches
    && (forall k | |s.batches| <= k < |t.batches| :: |t.batches[k].0| == n)
    && (limit.Some? ==> |t.batches| <= |s.batches| + limit.value)
  }

  /** Whatever the hooks do, every batch inserts the rows of all builders; and if no hook
      calls the next mutator more than once, at most one batch is issued. */
  lemma {:induction false} HookBatches<M, S, N, D, E>(job: Job<M, S, N, D, E>, i: nat, h: nat, s: State<M, S, N, D>)
    requires i < |job.hooks| && h <= |job.hooks[i]| && Fits(job, s) && Filled(s.slots, i)
    ensures BatchesGrow(|job.hooks|, if AtMostOneCall(job.hooks) then Some(1) else None, s, RunHooks(job, i, h, s).0)
    decreases |job.hooks| - i, |job.hooks[i]| - h, 2
  {
    if h == |job.hooks[i]| {
      CoreBatches(job, i, s);
    } else {
      ProgramBatches(job, i, h, job.hooks[i][h], Done, s);
    }
  }

  lemma {:induction false} CoreBatches<M, S, N, D, E>(job: Job<M, S, N, D, E>, i: nat, s: State<M, S, N, D>)
    requires i < |job.hooks| && Fits(job, s) && Filled(s.slots, i)
    ensures BatchesGrow(|job.hooks|, if AtMostOneCall(job.hooks) then Some(1) else None, s, RunCore(job, i, s).0)
    decreases |job.hooks| - i, 0, 1
  {
    if job.check(s.slots[i].fields).None? {
      var filled := Fill(job, i, s);
      var (t, r) := RunNext(job, i, filled);
      if i < |job.hooks| - 1 {
        HookBatches(job, i + 1, 0, filled);
      }
      assert BatchesGrow(|job.hooks|, if AtMostOneCall(job.hooks) then Some(1) else None, s, t);
    }
  }

  lemma {:induction false} ProgramBatches<M, S, N, D, E>(
    job: Job<M, S, N, D, E>, i: nat, h: nat, p: Program<M, E>, last: Answer<E>, s: State<M, S, N, D>)
    requires i < |job.hooks| && h < |job.hooks[i]| && Fits(job, s) && Filled(s.slots, i)
    ensures BatchesGrow(
              |job.hooks|, if AtMostOneCall(job.hooks) then Some(Calls(p)) else None,
              s, RunProgram(job, i, h, p, last, s).0)
    decreases |job.hooks| - i, |job.hooks[i]| - h, 0, p
  {
    match p
    case Return(_) =>
    case Edit(f, rest) => ProgramBatches(job, i, h, rest, last, EditFields(s, i, f));
    case Branch(test, yes, no) => ProgramBatches(job, i, h, if test(s.slots[i].fields) then yes else no, last, s);
    case Next(ok, failed) =>
      HookBatches(job, i, h + 1, s);
      var (t, result) := RunHooks(job, i, h + 1, s);
      ProgramBatches(job, i, h, if result.Done? then ok else failed, result, t);
  }

  // An honest hook reports success only if one of its calls succeeded: `called` says that it
  // has called on, and failed each time. What it does after a success does not matter.
  ghost predicate Honest<M, E>(p: Program<M, E>, called: bool)
  {
    match p
    case Return(Success) => false
    case Return(Failure(_)) => true
    case Return(Last) => called
    case Edit(_, rest) => Honest(rest, called)
    case Branch(_, yes, no) => Honest(yes, called) && Honest(no, called)
    case Next(_, failed) => Honest(failed, true)
  }

  ghost predicate AllHonest<M, E>(hooks: seq<seq<Program<M, E>>>)
  {
    forall i, h | 0 <= i < |hooks| && 0 <= h < |hooks[i]| :: Honest(hooks[i][h], false)
  }

  // No mutation that was done is undone.
  ghost predicate DoneStays<M, S, N, D>(s: State<M, S, N, D>, t: State<M, S, N, D>)
  {
    |t.slots| == |s.slots| && forall j | 0 <= j < |s.slots| :: s.slots[j].done ==> t.slots[j].done
  }

  lemma {:induction false} HooksKeepDone<M, S, N, D, E>(job: Job<M, S, N, D, E>, i: nat, h: nat, s: State<M, S, N, D>)
    requires i < |job.hooks| && h <= |job.hooks[i]| && Fits(job, s) && Filled(s.slots, i)
    ensures DoneStays(s, RunHooks(job, i, h, s).0)
    decreases |job.hooks| - i, |job.hooks[i]| - h, 2
  {
    if h == |job.hooks[i]| {
      CoreKeepsDone(job, i, s);
    } else {
      ProgramKeepsDone(job, i, h, job.hooks[i][h], Done, s);
    }
  }

  lemma {:induction false} CoreKeepsDone<M, S, N, D, E>(job: Job<M, S, N, D, E>, i: nat, s: State<M, S, N, D>)
    requires i < |job.hooks| && Fits(job, s) && Filled(s.slots, i)
    ensures DoneStays(s, RunCore(job, i, s).0)
    decreases |job.hooks| - i, 0, 1
  {
    if job.check(s.slots[i].fields).None? {
      var filled := Fill(job, i, s);
      var (t, r) := RunNext(job, i, filled);
      assert DoneStays(s, filled);
      if i < |job.hooks| - 1 {
        HooksKeepDone(job, i + 1, 0, filled);
      }
      assert DoneStays(filled, t) && DoneStays(t, Finish(job, i, t));
    }
  }

  lemma {:induction false} ProgramKeepsDone<M, S, N, D, E>(
    job: Job<M, S, N, D, E>, i: nat, h: nat, p: Program<M, E>, last: Answer<E>, s: State<M, S, N, D>)
    requires i < |job.hooks| && h < |job.hooks[i]| && Fits(job, s) && Filled(s.slots, i)
    ensures DoneStays(s, RunProgram(job, i, h, p, last, s).0)
    decreases |job.hooks| - i, |job.hooks[i]| - h, 0, p
  {
    match p
    case Return(_) =>
    case Edit(f, rest) => ProgramKeepsDone(job, i, h, rest, last, EditFields(s, i, f));
    case Branch(test, yes, no) => ProgramKeepsDone(job, i, h, if test(s.slots[i].fields) then yes else no, last, s);
    case Next(ok, failed) =>
      HooksKeepDone(job, i, h + 1, s);
      var (t, result) := RunHooks(job, i, h + 1, s);
      ProgramKeepsDone(job, i, h, if result.Done? then ok else failed, result, t);
  }

  // From builder i on every mutation is done, and one of the batches since `base` was accepted.
  ghost predicate Served<M, S, N, D>(i: nat, base: nat, t: State<M, S, N, D>)
  {
    && (forall j | i <= j < |t.slots| :: t.slots[j].done)
    && exists k | base <= k < |t.batches| :: t.batches[k].1
  }

  // What was saved stays saved, whatever the rest of a hook does.
  lemma ServedStays<M, S, N, D, E>(
    job: Job<M, S, N, D, E>, i: nat, h: nat, p: Program<M, E>, last: Answer<E>, base: nat, s: State<M, S, N, D>)
    requires i < |job.hooks| && h < |job.hooks[i]| && Fits(job, s) && Filled(s.slots, i)
    requires Served(i, base, s)
    ensures Served(i, base, RunProgram(job, i, h, p, last, s).0)
  {
    ProgramKeepsDone(job, i, h, p, last, s);
    ProgramBatches(job, i, h, p, last, s);
    var t := RunProgram(job, i, h, p, last, s).0;
    var k :| base <= k < |s.batches| && s.batches[k].1;
    assert t.batches[k] == s.batches[k];
  }

  /** With honest hooks, which may decide on the mutation, refuse, retry, or call again after
      a success, a reported success still means that a batch was accepted and that every
      mutation is done. */
  lemma {:induction false} HonestHooks<M, S, N, D, E>(
    job: Job<M, S, N, D, E>, i: nat, h: nat, base: nat, s: State<M, S, N, D>)
    requires i < |job.hooks| && h <= |job.hooks[i]| && Fits(job, s) && Filled(s.slots, i)
    requires AllHonest(job.hooks) && base <= |s.batches|
    ensures RunHooks(job, i, h, s).1.Done? ==> Served(i, base, RunHooks(job, i, h, s).0)
    decreases |job.hooks| - i, |job.hooks[i]| - h, 2
  {
    if h == |job.hooks[i]| {
      HonestCore(job, i, base, s);
    } else {
      HonestProgram(job, i, h, job.hooks[i][h], false, Done, base, s);
    }
  }

  lemma {:induction false} HonestCore<M, S, N, D, E>(job: Job<M, S, N, D, E>, i: nat, base: nat, s: State<M, S, N, D>)
    requires i < |job.hooks| && Fits(job, s) && Filled(s.slots, i)
    requires AllHonest(job.hooks) && base <= |s.batches|
    ensures RunCore(job, i, s).1.Done? ==> Served(i, base, RunCore(job, i, s).0)
    decreases |job.hooks| - i, 0, 1
  {
    if job.check(s.slots[i].fields).None? {
      var filled := Fill(job, i, s);
      var (t, r) := RunNext(job, i, filled);
      if r.Done? {
        if i < |job.hooks| - 1 {
          HonestHooks(job, i + 1, 0, base, filled);
        } else {
          assert t.batches[|s.batches|].1;
        }
        assert Served(i + 1, base, t);
        ServedFinish(job, i, base, t);
      }
    }
  }

  lemma ServedFinish<M, S, N, D, E>(job: Job<M, S, N, D, E>, i: nat, base: nat, t: State<M, S, N, D>)
    requires i < |job.hooks| && Fits(job, t) && Served(i + 1, base, t)
    ensures Served(i, base, Finish(job, i, t))
  {
    var u := Finish(job, i, t);
    forall j | i <= j < |u.slots| ensures u.slots[j].done {
      if j != i {
        assert u.slots[j] == t.slots[j];
      }
    }
  }

  lemma {:induction false} HonestProgram<M, S, N, D, E>(
    job: Job<M, S, N, D, E>, i: nat, h: nat, p: Program<M, E>, called: bool, last: Answer<E>, base: nat,
    s: State<M, S, N, D>)
    requires i < |job.hooks| && h < |job.hooks[i]| && Fits(job, s) && Filled(s.slots, i)
    requires AllHonest(job.hooks) && base <= |s.batches|
    requires Honest(p, called) && (called ==> last.Failed?)
    ensures RunProgram(job, i, h, p, last, s).1.Done? ==> Served(i, base, RunProgram(job, i, h, p, last, s).0)
    decreases |job.hooks| - i, |job.hooks[i]| - h, 0, p
  {
    match p
    case Return(_) =>
    case Edit(f, rest) => HonestProgram(job, i, h, rest, called, last, base, EditFields(s, i, f));
    case Branch(test, yes, no) =>
      HonestProgram(job, i, h, if test(s.slots[i].fields) then yes else no, called, last, base, s);
    case Next(ok, failed) =>
      HonestHooks(job, i, h + 1, base, s);
      HookBatches(job, i, h + 1, s);
      var (t, result) := RunHooks(job, i, h + 1, s);
      if result.Done? {
        ServedStays(job, i, h, ok, result, base, t);
      } else {
        HonestProgram(job, i, h, failed, true, result, base, t);
      }
  }

  // A hook that turns every answer into success, and one that calls a second time after success.
  function Swallow<M, E>(): Program<M, E> { Next(Return(Success), Return(Success)) }

  function Twice<M, E>(): Program<M, E> { Next(Next(Return(Last), Return(Last)), Return(Last)) }

  /** Honesty is needed: behind a hook that swallows errors, a failing check is reported as a
      successful save of a row that does not exist. */
  lemma SwallowedError<M, S, N, D, E>(job: Job<M, S, N, D, E>, s: State<M, S, N, D>)
    requires job.hooks == [[Swallow()]] && Fits(job, s) && job.check(s.slots[0].fields).Some?
    ensures SaveAll(job, s) == (s, Done)
  {
    var hook: Program<M, E> := Swallow();
    var e := job.check(s.slots[0].fields).value;
    assert RunHooks(job, 0, 0, s) == RunProgram(job, 0, 0, hook, Done, s);
    assert RunHooks(job, 0, 1, s) == RunCore(job, 0, s) == (s, Failed(e));
    assert RunProgram(job, 0, 0, hook, Done, s) == RunProgram(job, 0, 0, Return(Success), Failed(e), s);
  }

  /** A hook that answers without calling on does so for the builders before it: they are done,
      with ID 0 and a node that has no ID, although nothing was inserted. */
  lemma SkippedInsert<M, S, N, D, E>(job: Job<M, S, N, D, E>, s: State<M, S, N, D>)
    requires job.hooks == [[], [Return(Success)]] && Fits(job, s) && job.check(s.slots[0].fields).None?
    ensures var (t, r) := SaveAll(job, s);
      && r == Done && t.store == s.store && t.batches == s.batches && t.slots[1] == s.slots[1]
      && t.slots[0].done && t.slots[0].id == Some(0) && t.slots[0].node == Some(job.node(s.slots[0].fields))
      && t.slots[0].fields == s.slots[0].fields
  {
    var filled := Fill(job, 0, s);
    var hook: Program<M, E> := Return(Success);
    assert RunHooks(job, 1, 0, filled) == RunProgram(job, 1, 0, hook, Done, filled) == (filled, Done);
    assert RunNext(job, 0, filled) == (filled, Done);
    assert RunHooks(job, 0, 0, s) == RunCore(job, 0, s) == (Finish(job, 0, filled), Done);
  }

  /** One call is needed: behind a hook that calls twice, one save inserts two rows. */
  lemma DoubleInsert<M, S, N, D, E>(
    job: Job<M, S, N, D, E>, s: State<M, S, N, D>, once: D, twice: D, id1: int, id2: int)
    requires job.hooks == [[Twice()]] && Fits(job, s) && job.check(s.slots[0].fields).None?
    requires job.create(s.store, job.spec(s.slots[0].fields)) == Ok((once, id1))
    requires job.create(once, job.spec(s.slots[0].fields)) == Ok((twice, id2))
    ensures var (t, r) := SaveAll(job, s);
      var rows := [job.spec(s.slots[0].fields)];
      r == Done && t.store == twice && t.batches == s.batches + [(rows, true), (rows, true)]
  {
    var hook: Program<M, E> := Twice();
    var rows := [job.spec(s.slots[0].fields)];
    OneInsert(job, s, once, id1);
    var t := RunHooks(job, 0, 1, s).0;
    OneInsert(job, t, twice, id2);
    var u := RunHooks(job, 0, 1, t).0;
    assert RunHooks(job, 0, 0, s) == RunProgram(job, 0, 0, hook, Done, s);
    assert RunProgram(job, 0, 0, hook, Done, s) == RunProgram(job, 0, 0, hook.ok, Done, t);
    assert RunProgram(job, 0, 0, hook.ok, Done, t) == RunProgram(job, 0, 0, Return(Last), Done, u);
    assert s.batches + [(rows, true)] + [(rows, true)] == s.batches + [(rows, true), (rows, true)];
  }

  lemma OneInsert<M, S, N, D, E>(job: Job<M, S, N, D, E>, s: State<M, S, N, D>, after: D, id: int)
    requires job.hooks == [[Twice()]] && Fits(job, s) && job.check(s.slots[0].fields).None?
    requires job.create(s.store, job.spec(s.slots[0].fields)) == Ok((after, id))
    ensures var (t, r) := RunHooks(job, 0, 1, s);
      && r == Done && t.store == after && t.slots[0].fields == s.slots[0].fields
      && t.batches == s.batches + [([job.spec(s.slots[0].fields)], true)]
  {
    var filled := Fill(job, 0, s);
    var rows := [job.spec(s.slots[0].fields)];
    assert RunHooks(job, 0, 1, s) == RunCore(job, 0, s);
    assert Specs(filled.slots) == rows;
    assert rows[..0] == [];
    assert Batch(job.create, s.store, rows) == Ok((after, [] + [id]));
  }
}
