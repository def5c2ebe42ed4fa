/** Save of one builder: withHooks composes its hooks as closures around sqlSave. The chain
    of closures behaves as the hook by hook run that the comparison with bulk create uses. */
module SaveChain {
  import opened Wrappers
  import opened BulkCreate
  import opened BulkTheorems
  import opened SingleSave
  import opened HookChain

  type Mutator<!M, !N, !D, !E> = Call<Solo<M, N, D>, (), N, E>

  // A hook as the wrapper it is: it gets the next mutator, and gives a mutator back.
  function Denote<M, N, D, E>(p: Program<M, E>): Wrapper<Solo<M, N, D>, (), N, E>
  {
    (next: Mutator<M, N, D, E>) => Mutating(p, Ok(Alien), next)
  }

  function Mutating<M, N, D, E>(p: Program<M, E>, last: Result<Dynamic<N>, ChainError<E>>, next: Mutator<M, N, D, E>):
    Mutator<M, N, D, E>
  {
    (s: Solo<M, N, D>, m: Dynamic<()>) => Step(p, last, next, s, m)
  }

  function Step<M, N, D, E>(
    p: Program<M, E>, last: Result<Dynamic<N>, ChainError<E>>, next: Mutator<M, N, D, E>, s: Solo<M, N, D>,
    m: Dynamic<()>):
    (Solo<M, N, D>, Result<Dynamic<N>, ChainError<E>>)
    decreases p
  {
    match p
    case Return(Success) => (s, Ok(Alien))
    case Return(Failure(e)) => (s, Err(Raised(e)))
    case Return(Last) => (s, last)
    case Edit(f, rest) => Step(rest, last, next, s.(fields := f(s.fields)), m)
    case Branch(test, yes, no) => Step(if test(s.fields) then yes else no, last, next, s, m)
    case Next(ok, failed) =>
      var (t, result) := next(s, m);
      Step(if result.Ok? then ok else failed, result, next, t, m)
  }

  function DenoteAll<M, N, D, E>(hooks: seq<Program<M, E>>): seq<Wrapper<Solo<M, N, D>, (), N, E>>
  {
    if hooks == [] then [] else [Denote(hooks[0])] + DenoteAll(hooks[1..])
  }

  // sqlSave as the action; the mutation object is the builder's own already.
  function Exec<M, S, N, D, E>(job: Job<M, S, N, D, E>): Solo<M, N, D> -> (Solo<M, N, D>, Result<N, E>)
  {
    (s: Solo<M, N, D>) => Saving(job, s)
  }

  function Saving<M, S, N, D, E>(job: Job<M, S, N, D, E>, s: Solo<M, N, D>): (Solo<M, N, D>, Result<N, E>)
  {
    match job.check(s.fields)
    case Some(e) => (SqlSave(job, s).0, Err(e))
    case None =>
      match job.create(s.store, job.spec(s.fields))
      case Err(e) => (SqlSave(job, s).0, Err(e))
      case Ok((_, id)) => (SqlSave(job, s).0, Ok(job.withID(job.node(s.fields), id)))
  }

  function Own<M, N, D>(): (Solo<M, N, D>, ()) -> Solo<M, N, D>
  {
    (s: Solo<M, N, D>, _: ()) => s
  }

  // Same state, same verdict, same error.
  ghost predicate SameOutcome<M, N, D, E>(
    run: (Solo<M, N, D>, Answer<E>), call: (Solo<M, N, D>, Result<Dynamic<N>, ChainError<E>>))
  {
    && run.0 == call.0
    && AnswerIs(run.1, call.1)
  }

  ghost predicate AnswerIs<N, E>(answer: Answer<E>, r: Result<Dynamic<N>, ChainError<E>>)
  {
    match answer
    case Done => r.Ok?
    case Failed(e) => r == Err(Raised(e))
  }

  /** The closures that withHooks composes run as the hooks do one by one. */
  lemma {:induction false} ChainRuns<M, S, N, D, E>(
    job: Job<M, S, N, D, E>, hooks: seq<Program<M, E>>, h: nat, s: Solo<M, N, D>)
    requires h <= |hooks|
    ensures SameOutcome(SoloHooks(job, hooks, h, s),
            Compose(DenoteAll(hooks[h..]), Base(Own(), Exec(job)))(s, Typed(())))
    decreases |hooks| - h, 1
  {
    if h == |hooks| {
      assert Base(Own(), Exec(job))(s, Typed(())) == Execute(Exec(job), s);
    } else {
      assert hooks[h..][1..] == hooks[h + 1..];
      var wrappers: seq<Wrapper<Solo<M, N, D>, (), N, E>> := DenoteAll(hooks[h..]);
      assert wrappers[1..] == DenoteAll<M, N, D, E>(hooks[h + 1..]);
      var next := Compose(DenoteAll(hooks[h + 1..]), Base(Own(), Exec(job)));
      assert Compose(wrappers, Base(Own(), Exec(job))) == Denote(hooks[h])(next);
      StepRuns(job, hooks, h, hooks[h], Done, Ok(Alien), s);
    }
  }

  lemma {:induction false} StepRuns<M, S, N, D, E>(
    job: Job<M, S, N, D, E>, hooks: seq<Program<M, E>>, h: nat, p: Program<M, E>, last: Answer<E>,
    lastCall: Result<Dynamic<N>, ChainError<E>>, s: Solo<M, N, D>)
    requires h < |hooks| && AnswerIs(last, lastCall)
    ensures SameOutcome(SoloProgram(job, hooks, h, p, last, s),
                   Step(p, lastCall, Compose(DenoteAll(hooks[h + 1..]), Base(Own(), Exec(job))), s, Typed(())))
    decreases |hooks| - h, 0, p
  {
    match p
    case Return(_) =>
    case Edit(f, rest) => StepRuns(job, hooks, h, rest, last, lastCall, s.(fields := f(s.fields)));
    case Branch(test, yes, no) =>
      StepRuns(job, hooks, h, if test(s.fields) then yes else no, last, lastCall, s);
    case Next(ok, failed) =>
      ChainRuns(job, hooks, h + 1, s);
      var (t, result) := SoloHooks(job, hooks, h + 1, s);
      var call := Compose(DenoteAll(hooks[h + 1..]), Base(Own(), Exec(job)))(s, Typed(()));
      StepRuns(job, hooks, h, if result.Done? then ok else failed, result, call.1, t);
  }

  // The value that comes back is the node that was saved.
  ghost predicate ReturnsSaved<M, N, D, E>(call: (Solo<M, N, D>, Result<Dynamic<N>, ChainError<E>>))
  {
    call.1.Ok? ==> call.0.node.Some? && call.1.value == Typed(call.0.node.value)
  }

  lemma {:induction false} AfterCarries<M, N, D, E>(
    p: Program<M, E>, last: Result<Dynamic<N>, ChainError<E>>, next: Mutator<M, N, D, E>, s: Solo<M, N, D>,
    m: Dynamic<()>)
    requires Returns(p) && ReturnsSaved((s, last))
    ensures ReturnsSaved(Step(p, last, next, s, m))
    decreases p
  {
    match p
    case Return(_) =>
    case Edit(f, rest) => AfterCarries(rest, last, next, s.(fields := f(s.fields)), m);
    case Branch(test, yes, no) => AfterCarries(if test(s.fields) then yes else no, last, next, s, m);
    case Next(_, _) =>
  }

  lemma {:induction false} StepCarries<M, N, D, E>(
    p: Program<M, E>, last: Result<Dynamic<N>, ChainError<E>>, next: Mutator<M, N, D, E>, s: Solo<M, N, D>,
    m: Dynamic<()>)
    requires Forwards(p) && forall t :: ReturnsSaved(next(t, m))
    ensures ReturnsSaved(Step(p, last, next, s, m))
    decreases p
  {
    match p
    case Return(_) =>
    case Edit(f, rest) => StepCarries(rest, last, next, s.(fields := f(s.fields)), m);
    case Branch(test, yes, no) => StepCarries(if test(s.fields) then yes else no, last, next, s, m);
    case Next(ok, failed) =>
      var (t, result) := next(s, m);
      assert ReturnsSaved(next(s, m));
      AfterCarries(if result.Ok? then ok else failed, result, next, t, m);
  }

  lemma {:induction false} ChainCarries<M, S, N, D, E>(
    job: Job<M, S, N, D, E>, hooks: seq<Program<M, E>>, s: Solo<M, N, D>)
    requires forall k | 0 <= k < |hooks| :: Forwards(hooks[k])
    ensures ReturnsSaved(Compose(DenoteAll(hooks), Base(Own(), Exec(job)))(s, Typed(())))
  {
    if hooks == [] {
      assert Base(Own(), Exec(job))(s, Typed(())) == Execute(Exec(job), s);
    } else {
      var wrappers: seq<Wrapper<Solo<M, N, D>, (), N, E>> := DenoteAll(hooks);
      var next := Compose(DenoteAll(hooks[1..]), Base(Own(), Exec(job)));
      assert wrappers[1..] == DenoteAll<M, N, D, E>(hooks[1..]);
      assert Compose(wrappers, Base(Own(), Exec(job))) == Denote(hooks[0])(next);
      forall t ensures ReturnsSaved(next(t, Typed(()))) {
        ChainCarries(job, hooks[1..], t);
      }
      StepCarries(hooks[0], Ok(Alien), next, s, Typed(()));
    }
  }

  function Wrapping<M, N, D, E>(hooks: seq<Program<M, E>>): (wrappers: seq<Option<Wrapper<Solo<M, N, D>, (), N, E>>>)
    ensures |wrappers| == |hooks| && (forall i | 0 <= i < |hooks| :: wrappers[i].Some?)
    ensures Values(wrappers) == DenoteAll(hooks)
  {
    if hooks == [] then []
    else
      var rest: seq<Option<Wrapper<Solo<M, N, D>, (), N, E>>> := Wrapping(hooks[1..]);
      var wrappers := [Some(Denote(hooks[0]))] + rest;
      assert Values(wrappers) == [Denote(hooks[0])] + Values(rest);
      wrappers
  }

  /** Save: an error of the defaults ends it before any hook runs. Otherwise the hooks run
      around sqlSave, and what the outermost one returns is narrowed to a node; if they
      forward, the node that comes back is the one that was saved. */
  method Save<M(!new), S, N(!new), D(!new), E>(
    job: Job<M, S, N, D, E>, defaults: M -> (M, Option<E>), hooks: seq<Program<M, E>>, s: Solo<M, N, D>)
    returns (t: Solo<M, N, D>, r: Result<N, ChainError<E>>)
    ensures var (fields, err) := defaults(s.fields);
      && (err.Some? ==> t == s.(fields := fields) && r == Err(Raised(err.value)))
      && (err.None? ==> t == SoloHooks(job, hooks, 0, s.(fields := fields)).0)
      && (err.None? ==>
            r == Narrow(Compose(DenoteAll(hooks), Base(Own(), Exec(job)))(s.(fields := fields), Typed(())).1))
      && (err.None? && (forall k | 0 <= k < |hooks| :: Forwards(hooks[k])) ==>
            match SoloHooks(job, hooks, 0, s.(fields := fields)).1
            case Done => t.node.Some? && r == Ok(t.node.value)
            case Failed(e) => r == Err(Raised(e)))
  {
    var (fields, err) := defaults(s.fields);
    var start := s.(fields := fields);
    if err.Some? {
      return start, Err(Raised(err.value));
    }
    var last;
    last, r := WithHooks(Own(), Exec(job), Wrapping(hooks), start, ());
    t := last;
    assert hooks[0..] == hooks;
    ChainRuns(job, hooks, 0, start);
    assert Base(Own(), Exec(job))(start, Typed(())) == Execute(Exec(job), start);
    if forall k | 0 <= k < |hooks| :: Forwards(hooks[k]) {
      ChainCarries(job, hooks, start);
    }
  }
}
