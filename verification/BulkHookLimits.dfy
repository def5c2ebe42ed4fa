/** Which hooks the bulk guarantee needs, exactly, for the only hook of a builder: a reported
    success means a saved row, for every builder and database, just when the hook is honest;
    and at most one batch is ever issued just when the hook calls on at most once. Both follow
    the decisions the hook takes on the mutation it is given. */
module BulkHookLimits {
  import opened Wrappers
  import opened BulkCreate
  import opened BulkTheorems
  import opened BulkSave
  import opened BulkHooks

  // One builder whose only hook is p.
  ghost predicate Behind<M, S, N, D, E>(job: Job<M, S, N, D, E>, p: Program<M, E>, s: State<M, S, N, D>)
  {
    job.hooks == [[p]] && Fits(job, s)
  }

  // On a mutation with these fields the hook never reports success after nothing but
  // failures. `called` says that it has called on already.
  ghost predicate HonestOn<M, E>(p: Program<M, E>, m: M, called: bool)
  {
    match p
    case Return(Success) => false
    case Return(Failure(_)) => true
    case Return(Last) => called
    case Edit(f, rest) => HonestOn(rest, f(m), called)
    case Branch(test, yes, no) => HonestOn(if test(m) then yes else no, m, called)
    case Next(_, failed) => HonestOn(failed, m, true)
  }

  // How often the hook calls on, at most.
  function CallsGiven<M, E>(p: Program<M, E>, m: M): nat
  {
    match p
    case Return(_) => 0
    case Edit(f, rest) => CallsGiven(rest, f(m))
    case Branch(test, yes, no) => CallsGiven(if test(m) then yes else no, m)
    case Next(ok, failed) => 1 + Larger(CallsGiven(ok, m), CallsGiven(failed, m))
  }

  // The conditions that do not look at the mutation imply those that do.
  lemma {:induction false} OnEveryMutation<M, E>(p: Program<M, E>, m: M, called: bool)
    ensures Honest(p, called) ==> HonestOn(p, m, called)
    ensures CallsGiven(p, m) <= Calls(p)
    decreases p
  {
    match p
    case Return(_) =>
    case Edit(f, rest) => OnEveryMutation(rest, f(m), called);
    case Branch(test, yes, no) => OnEveryMutation(if test(m) then yes else no, m, called);
    case Next(ok, failed) =>
      OnEveryMutation(ok, m, called);
      OnEveryMutation(failed, m, true);
  }

  // One call of the only hook.
  lemma OneCall<M, S, N, D, E>(job: Job<M, S, N, D, E>, p: Program<M, E>, s: State<M, S, N, D>)
    requires Behind(job, p, s)
    ensures var (t, r) := RunHooks(job, 0, 1, s);
      && t.slots[0].fields == s.slots[0].fields && |s.batches| <= |t.batches| <= |s.batches| + 1
      && (r.Done? ==> Served(0, |s.batches|, t))
  {
    assert RunHooks(job, 0, 1, s) == RunCore(job, 0, s);
    if job.check(s.slots[0].fields).None? {
      var filled := Fill(job, 0, s);
      var (t, r) := RunNext(job, 0, filled);
      assert (t, r) == RunBatch(job, filled);
      assert t.slots[0].fields == filled.slots[0].fields;
      assert r.Done? ==> t.batches[|s.batches|].1;
    }
  }

  ghost predicate Refuses<M(!new), S, N, D, E>(job: Job<M, S, N, D, E>)
  {
    forall m :: job.check(m).Some?
  }

  // A hook around a check that always fails.
  lemma {:induction false} RefusedHook<M(!new), S, N, D, E>(
    job: Job<M, S, N, D, E>, p: Program<M, E>, rest: Program<M, E>, called: bool, last: Answer<E>, s: State<M, S, N, D>)
    requires Behind(job, p, s) && Refuses(job) && (called <==> last.Failed?)
    ensures var (t, r) := RunProgram(job, 0, 0, rest, last, s);
      (r.Done? <==> !HonestOn(rest, s.slots[0].fields, called)) && OnlyFields(0, s, t)
    decreases rest
  {
    match rest
    case Return(_) =>
    case Edit(f, more) => RefusedHook(job, p, more, called, last, EditFields(s, 0, f));
    case Branch(test, yes, no) => RefusedHook(job, p, if test(s.slots[0].fields) then yes else no, called, last, s);
    case Next(_, failed) =>
      assert RunHooks(job, 0, 1, s) == RunCore(job, 0, s) == (s, Failed(job.check(s.slots[0].fields).value));
      RefusedHook(job, p, failed, true, RunCore(job, 0, s).1, s);
  }

  /** Where every check fails, a hook reports success exactly when it is dishonest; nothing
      was saved, no batch issued and no mutation marked. */
  lemma SuccessWithoutSaving<M(!new), S, N, D, E>(job: Job<M, S, N, D, E>, p: Program<M, E>, s: State<M, S, N, D>)
    requires Behind(job, p, s) && Refuses(job)
    ensures var (t, r) := SaveAll(job, s);
      && (r.Done? <==> !HonestOn(p, s.slots[0].fields, false))
      && t.store == s.store && t.batches == s.batches && Untouched(s, t)
  {
    assert RunHooks(job, 0, 0, s) == RunProgram(job, 0, 0, p, Done, s);
    RefusedHook(job, p, p, false, Done, s);
    var t := SaveAll(job, s).0;
    assert t.slots[0].done == s.slots[0].done && t.slots[0].id == s.slots[0].id;
  }

  // An honest hook, whatever the check and the database.
  lemma {:induction false} HonestHook<M, S, N, D, E>(
    job: Job<M, S, N, D, E>, p: Program<M, E>, rest: Program<M, E>, called: bool, last: Answer<E>, base: nat,
    s: State<M, S, N, D>)
    requires Behind(job, p, s) && base <= |s.batches|
    requires HonestOn(rest, s.slots[0].fields, called) && (called ==> last.Failed?)
    ensures var (t, r) := RunProgram(job, 0, 0, rest, last, s); r.Done? ==> Served(0, base, t)
    decreases rest
  {
    match rest
    case Return(_) =>
    case Edit(f, more) => HonestHook(job, p, more, called, last, base, EditFields(s, 0, f));
    case Branch(test, yes, no) =>
      HonestHook(job, p, if test(s.slots[0].fields) then yes else no, called, last, base, s);
    case Next(ok, failed) =>
      OneCall(job, p, s);
      var (t, result) := RunHooks(job, 0, 1, s);
      if result.Done? {
        assert Served(0, base, t);
        ServedStays(job, 0, 0, ok, result, base, t);
      } else {
        HonestHook(job, p, failed, true, result, base, t);
      }
  }

  ghost predicate SuccessMeansSaved<M(!new), S(!new), N(!new), D(!new), E(!new)>(p: Program<M, E>)
  {
    forall job: Job<M, S, N, D, E>, s: State<M, S, N, D> | Behind(job, p, s) && SaveAll(job, s).1.Done? ::
      Served(0, |s.batches|, SaveAll(job, s).0)
  }

  // One builder whose mutation holds m.
  function Holding<M, S, N, D>(s: State<M, S, N, D>, m: M): State<M, S, N, D>
    requires |s.slots| == 1
  {
    s.(slots := [s.slots[0].(fields := m)])
  }

  /** Success means saved, whatever the builder, its checks and the database, exactly when on
      no mutation the hook reports success after nothing but failures. */
  lemma HonestExactly<M(!new), S(!new), N(!new), D(!new), E(!new)>(
    p: Program<M, E>, any: Job<M, S, N, D, E>, s: State<M, S, N, D>, e: E)
    requires |s.slots| == 1
    ensures SuccessMeansSaved<M, S, N, D, E>(p) <==> forall m :: HonestOn(p, m, false)
  {
    if forall m :: HonestOn(p, m, false) {
      forall job: Job<M, S, N, D, E>, t: State<M, S, N, D> | Behind(job, p, t) && SaveAll(job, t).1.Done?
        ensures Served(0, |t.batches|, SaveAll(job, t).0)
      {
        assert RunHooks(job, 0, 0, t) == RunProgram(job, 0, 0, p, Done, t);
        HonestHook(job, p, p, false, Done, |t.batches|, t);
      }
    } else {
      var m :| !HonestOn(p, m, false);
      var t := Holding(s, m);
      var job := any.(hooks := [[p]], check := _ => Some(e));
      SuccessWithoutSaving(job, p, t);
      assert Behind(job, p, t) && SaveAll(job, t).1.Done?;
      assert !Served(0, |t.batches|, SaveAll(job, t).0);
    }
  }

  // How often p calls on when every call ends the same way.
  function Rounds<M, E>(p: Program<M, E>, m: M, accepted: bool): nat
  {
    match p
    case Return(_) => 0
    case Edit(f, rest) => Rounds(rest, f(m), accepted)
    case Branch(test, yes, no) => Rounds(if test(m) then yes else no, m, accepted)
    case Next(ok, failed) => 1 + Rounds(if accepted then ok else failed, m, accepted)
  }

  // Every check passes, and every insert ends the same way.
  ghost predicate Uniform<M(!new), S(!new), N, D(!new), E>(job: Job<M, S, N, D, E>, accepted: bool)
  {
    (forall m :: job.check(m).None?) && forall d, spec :: job.create(d, spec).Ok? == accepted
  }

  // The batches of a run: `n` more than before, each with the one row, all ending alike.
  ghost predicate Issued<M, S, N, D>(n: nat, accepted: bool, s: State<M, S, N, D>, t: State<M, S, N, D>)
  {
    && |t.batches| == |s.batches| + n && s.batches <= t.batches
    && forall k | |s.batches| <= k < |t.batches| :: |t.batches[k].0| == 1 && t.batches[k].1 == accepted
  }

  lemma UniformCore<M(!new), S(!new), N, D(!new), E>(
    job: Job<M, S, N, D, E>, p: Program<M, E>, accepted: bool, s: State<M, S, N, D>)
    requires Behind(job, p, s) && Uniform(job, accepted)
    ensures var (t, r) := RunHooks(job, 0, 1, s);
      r.Done? == accepted && Issued(1, accepted, s, t) && t.slots[0].fields == s.slots[0].fields
  {
    OneCall(job, p, s);
    assert RunHooks(job, 0, 1, s) == RunCore(job, 0, s);
    var filled := Fill(job, 0, s);
    var (t, r) := RunNext(job, 0, filled);
    assert (t, r) == RunBatch(job, filled);
    assert RunCore(job, 0, s) == if r.Failed? then (t, r) else (Finish(job, 0, t), Done);
    var specs := Specs(filled.slots);
    assert specs == [specs[0]] && specs[..0] == [];
    assert Batch(job.create, s.store, specs[..0]) == Ok((s.store, []));
    assert specs[..|specs| - 1] == [];
    assert Batch(job.create, s.store, specs).Ok? == job.create(s.store, specs[0]).Ok?;
  }

  lemma {:induction false} UniformHook<M(!new), S(!new), N, D(!new), E>(
    job: Job<M, S, N, D, E>, p: Program<M, E>, rest: Program<M, E>, last: Answer<E>, accepted: bool,
    s: State<M, S, N, D>)
    requires Behind(job, p, s) && Uniform(job, accepted)
    ensures Issued(Rounds(rest, s.slots[0].fields, accepted), accepted, s, RunProgram(job, 0, 0, rest, last, s).0)
    decreases rest
  {
    match rest
    case Return(_) =>
    case Edit(f, more) => UniformHook(job, p, more, last, accepted, EditFields(s, 0, f));
    case Branch(test, yes, no) => UniformHook(job, p, if test(s.slots[0].fields) then yes else no, last, accepted, s);
    case Next(ok, failed) =>
      UniformCore(job, p, accepted, s);
      var (t, result) := RunHooks(job, 0, 1, s);
      UniformHook(job, p, if accepted then ok else failed, result, accepted, t);
  }

  /** Every call inserts: where checks pass and inserts succeed, the row is inserted once per
      call; where inserts fail, every call is one failed attempt. */
  lemma OneBatchPerCall<M(!new), S(!new), N, D(!new), E>(
    job: Job<M, S, N, D, E>, p: Program<M, E>, accepted: bool, s: State<M, S, N, D>)
    requires Behind(job, p, s) && Uniform(job, accepted)
    ensures Issued(Rounds(p, s.slots[0].fields, accepted), accepted, s, SaveAll(job, s).0)
  {
    assert RunHooks(job, 0, 0, s) == RunProgram(job, 0, 0, p, Done, s);
    UniformHook(job, p, p, Done, accepted, s);
  }

  lemma {:induction false} RoundsOfCalls<M, E>(p: Program<M, E>, m: M)
    ensures Rounds(p, m, true) >= 1 <==> CallsGiven(p, m) >= 1
    ensures Rounds(p, m, false) >= 1 <==> CallsGiven(p, m) >= 1
    ensures CallsGiven(p, m) <= 1 <==> Rounds(p, m, true) <= 1 && Rounds(p, m, false) <= 1
    decreases p
  {
    match p
    case Return(_) =>
    case Edit(f, rest) => RoundsOfCalls(rest, f(m));
    case Branch(test, yes, no) => RoundsOfCalls(if test(m) then yes else no, m);
    case Next(ok, failed) =>
      RoundsOfCalls(ok, m);
      RoundsOfCalls(failed, m);
  }

  // A hook issues no more batches than it makes calls.
  lemma {:induction false} CallsBound<M, S, N, D, E>(
    job: Job<M, S, N, D, E>, p: Program<M, E>, rest: Program<M, E>, last: Answer<E>, s: State<M, S, N, D>)
    requires Behind(job, p, s)
    ensures |RunProgram(job, 0, 0, rest, last, s).0.batches| <= |s.batches| + CallsGiven(rest, s.slots[0].fields)
    decreases rest
  {
    match rest
    case Return(_) =>
    case Edit(f, more) => CallsBound(job, p, more, last, EditFields(s, 0, f));
    case Branch(test, yes, no) => CallsBound(job, p, if test(s.slots[0].fields) then yes else no, last, s);
    case Next(ok, failed) =>
      OneCall(job, p, s);
      var (t, result) := RunHooks(job, 0, 1, s);
      CallsBound(job, p, if result.Done? then ok else failed, result, t);
  }

  ghost predicate AtMostOneBatch<M(!new), S(!new), N(!new), D(!new), E(!new)>(p: Program<M, E>)
  {
    forall job: Job<M, S, N, D, E>, s: State<M, S, N, D> | Behind(job, p, s) ::
      |SaveAll(job, s).0.batches| <= |s.batches| + 1
  }

  /** At most one batch is issued, whatever the builder, its checks and the database, exactly
      when on every mutation the hook calls on at most once. */
  lemma OneBatchExactly<M(!new), S(!new), N(!new), D(!new), E(!new)>(
    p: Program<M, E>, any: Job<M, S, N, D, E>, s: State<M, S, N, D>, e: E)
    requires |s.slots| == 1
    ensures AtMostOneBatch<M, S, N, D, E>(p) <==> forall m :: CallsGiven(p, m) <= 1
  {
    if forall m :: CallsGiven(p, m) <= 1 {
      forall job: Job<M, S, N, D, E>, t: State<M, S, N, D> | Behind(job, p, t)
        ensures |SaveAll(job, t).0.batches| <= |t.batches| + 1
      {
        assert RunHooks(job, 0, 0, t) == RunProgram(job, 0, 0, p, Done, t);
        CallsBound(job, p, p, Done, t);
      }
    } else {
      var m :| CallsGiven(p, m) > 1;
      var t := Holding(s, m);
      RoundsOfCalls(p, m);
      var accepted := Rounds(p, m, true) > 1;
      var job := any.(
        hooks := [[p]], check := _ => None, create := (d, _) => if accepted then Ok((d, 0)) else Err(e));
      OneBatchPerCall(job, p, accepted, t);
      assert Behind(job, p, t);
    }
  }
}
