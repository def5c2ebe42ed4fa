/** The account builder object, and account creation as an instance of the bulk theorems. */
module AccountBuilder {
  import opened Wrappers
  import opened AccountColumns
  import opened AccountCreate
  import opened AccountDefaults
  import opened AccountSpecs
  import opened BulkCreate
  import opened BulkTheorems
  import opened BulkSave
  import opened SingleSave
  import opened BulkDefaults
  import opened BulkBuilder
  import opened Entities

  type Hooks<!E> = seq<seq<Program<AccountMutation, CreateError<E>>>>

  type Insert<!D, !E> = (D, AccountSpec) -> Result<(D, int), CreateError<E>>

  function AccountJob<D, E>(config: Config, hooks: Hooks<E>, create: Insert<D, E>):
    Job<AccountMutation, AccountSpec, AccountRow, D, CreateError<E>>
  {
    Job(hooks, (m: AccountMutation) => Check<E>(config, m), (m: AccountMutation) => NodeOf(m),
        (m: AccountMutation) => SpecOf(config, m), (node: AccountRow, id: int) => WithID(node, id), create)
  }

  class Builder<!D, !E> {
    var mutation: Mutation<AccountMutation>

    constructor (fields: AccountMutation)
      ensures mutation == Mutation(fields, None, false)
    {
      mutation := Mutation(fields, None, false);
    }

    // Each step reads the mutation the steps before it left; an error leaves those in place.
    method Defaults(config: Config) returns (err: Option<CreateError<E>>)
      modifies this
      ensures (mutation.fields, err) == ApplyDefaults(config, old(mutation.fields))
      ensures mutation == old(mutation).(fields := mutation.fields)
    {
      var m := mutation.fields;
      if m.times.createdAt.None? {
        if config.createdAt.None? {
          return Some(Uninitialized(Stamp(CreatedAt)));
        }
        m := m.(times := m.times.(createdAt := config.createdAt));
        mutation := mutation.(fields := m);
      }
      if m.times.updatedAt.None? {
        if config.updatedAt.None? {
          return Some(Uninitialized(Stamp(UpdatedAt)));
        }
        m := m.(times := m.times.(updatedAt := config.updatedAt));
        mutation := mutation.(fields := m);
      }
      if m.json.credentials.None? {
        if config.credentials.None? {
          return Some(Uninitialized(Json(Credentials)));
        }
        m := m.(json := m.json.(credentials := config.credentials));
        mutation := mutation.(fields := m);
      }
      if m.json.extra.None? {
        if config.extra.None? {
          return Some(Uninitialized(Json(Extra)));
        }
        m := m.(json := m.json.(extra := config.extra));
        mutation := mutation.(fields := m);
      }
      SetConstants(config);
      return None;
    }

    method SetConstants(config: Config)
      modifies this
      ensures mutation == old(mutation).(fields := ApplyConstants(config, old(mutation.fields)))
    {
      var m := mutation.fields;
      if m.counts.concurrency.None? {
        m := m.(counts := m.counts.(concurrency := Some(config.concurrency)));
      }
      if m.counts.priority.None? {
        m := m.(counts := m.counts.(priority := Some(config.priority)));
      }
      if m.rateMultiplier.None? {
        m := m.(rateMultiplier := Some(config.rateMultiplier));
      }
      if m.texts.status.None? {
        m := m.(texts := m.texts.(status := Some(config.status)));
      }
      if m.flags.autoPauseOnExpired.None? {
        m := m.(flags := m.flags.(autoPauseOnExpired := Some(config.autoPauseOnExpired)));
      }
      if m.flags.schedulable.None? {
        m := m.(flags := m.flags.(schedulable := Some(config.schedulable)));
      }
      mutation := mutation.(fields := m);
    }

    /** sqlSave: an insert that passes the check gives a fresh node with the assigned ID, and
        marks the mutation done; a failure changes neither the database nor the mutation. */
    method SqlSave(config: Config, create: Insert<D, E>, db: Database<D, AccountSpec>)
      returns (r: Result<Account, CreateError<E>>)
      modifies this, db`store
      ensures var (t, answer) := SingleSave.SqlSave(AccountJob(config, [], create), old(AsSolo(db.store)));
        && mutation == Mutation(t.fields, t.id, t.done) && db.store == t.store
        && (answer.Failed? ==> r == Err(answer.error))
        && (answer.Done? ==>
              && r.Ok? && fresh(r.value) && t.node == Some(r.value.scalars.row)
              && r.value.edges == AccountEdges([], null, [], [], LoadedTypes(false, false, false, false)))
    {
      var invalid := Check<E>(config, mutation.fields);
      if invalid.Some? {
        return Err(invalid.value);
      }
      var row, spec := CreateSpec(config, mutation.fields);
      var node := new Account(LoadedTypes(false, false, false, false));
      node.scalars := node.scalars.(row := row);
      match create(db.store, spec)
      case Err(e) => return Err(e);
      case Ok((store, id)) =>
        db.store := store;
        node.scalars := node.scalars.(row := WithID(node.scalars.row, id));
        mutation := Mutation(mutation.fields, Some(id), true);
        return Ok(node);
    }

    ghost function AsSolo(store: D): Solo<AccountMutation, AccountRow, D>
      reads this
    {
      Solo(mutation.fields, mutation.id, mutation.done, None, store)
    }
  }

  function Errors<E>(configs: seq<Config>, ms: seq<AccountMutation>): (errs: seq<Option<CreateError<E>>>)
    requires |configs| == |ms|
    ensures |errs| == |ms| && forall j | 0 <= j < |ms| :: errs[j] == ApplyDefaults<E>(configs[j], ms[j]).1
  {
    seq(|ms|, j requires 0 <= j < |ms| && |configs| == |ms| => ApplyDefaults<E>(configs[j], ms[j]).1)
  }

  // The hooks refuse the account, or leave the column unset.
  ghost predicate LeavesUnset<E>(a: Arrival<AccountMutation, E>, c: Column)
  {
    a.refusal.Some? || Given(a.fields, c).None?
  }

  /** Bulk creation of accounts may drop the error of the defaults: unless a hook sets the
      very field that has no default, the bulk save and the saves one by one agree. */
  lemma {:induction false} DroppingDefaultsIsHarmless<D, E>(
    config: Config, hooks: Hooks<E>, create: Insert<D, E>, configs: seq<Config>, ms: seq<AccountMutation>,
    s: State<AccountMutation, AccountSpec, AccountRow, D>)
    requires |s.slots| == |hooks| == |configs| == |ms| > 0 && AllForward(hooks)
    requires forall j | 0 <= j < |ms| :: s.slots[j].fields == ApplyDefaults<E>(configs[j], ms[j]).0
    requires forall j | 0 <= j < |ms| && ApplyDefaults<E>(configs[j], ms[j]).1.Some? ::
               LeavesUnset(Reach(hooks[j], 0, s.slots[j].fields), ApplyDefaults<E>(configs[j], ms[j]).1.value.c)
    ensures SavesAgree(AccountJob(config, hooks, create), s, Errors(configs, ms))
  {
    var job := AccountJob(config, hooks, create);
    var errs := Errors<E>(configs, ms);
    forall j | 0 <= j < |ms| && errs[j].Some?
      ensures Stopped(job, Reach(job.hooks[j], 0, s.slots[j].fields)).Some?
    {
      var a := Reach(hooks[j], 0, s.slots[j].fields);
      if a.refusal.None? {
        FailedDefaultsFailCheck<E>(configs[j], config, ms[j], a.fields);
      }
    }
    HarmlessDrop(job, s, errs);
  }

  // Some builder has no default for a column it left unset.
  ghost predicate LacksDefault(configs: seq<Config>, ms: seq<AccountMutation>)
    requires |configs| == |ms|
  {
    exists j | 0 <= j < |ms| :: exists c :: Turn(c) < 4 && Given(ms[j], c).None? && DefaultOf(configs[j], c).None?
  }

  /** Exactly when the bulk save and the saves one by one have the same verdict although bulk
      drops the error of the defaults: every unset column with a default function had one,
      or a hook refuses, or the fields the hooks leave have a problem, or the insert fails. */
  lemma SavesAgreeExactly<D, E>(
    config: Config, hooks: Hooks<E>, create: Insert<D, E>, configs: seq<Config>, ms: seq<AccountMutation>,
    s: State<AccountMutation, AccountSpec, AccountRow, D>)
    requires |s.slots| == |hooks| == |configs| == |ms| > 0 && AllForward(hooks)
    requires forall j | 0 <= j < |ms| :: s.slots[j].fields == ApplyDefaults<E>(configs[j], ms[j]).0
    ensures var job := AccountJob(config, hooks, create);
      var reached := ReachedBy(job, s.slots);
      SavesAgree(job, s, Errors(configs, ms)) <==>
      || !LacksDefault(configs, ms) || SomeProblem<E>(config, reached)
      || Batch(create, s.store, SpecsOf(job, reached)).Err?
  {
    var job := AccountJob(config, hooks, create);
    DropIsHarmlessExactly(job, s, Errors<E>(configs, ms));
    DefaultsLacking<E>(configs, ms);
    ChecksPass(job, config, ReachedBy(job, s.slots));
  }

  // Some builder is refused by a hook, or the fields the hooks leave it have a problem.
  ghost predicate SomeProblem<E>(config: Config, reached: seq<Arrival<AccountMutation, CreateError<E>>>)
  {
    exists j | 0 <= j < |reached| ::
      reached[j].refusal.Some? || exists c :: Problem<E>(config, reached[j].fields, c).Some?
  }

  lemma ChecksPass<D, E>(
    job: Job<AccountMutation, AccountSpec, AccountRow, D, CreateError<E>>, config: Config,
    reached: seq<Arrival<AccountMutation, CreateError<E>>>)
    requires forall m :: job.check(m) == Check<E>(config, m)
    ensures AllPass(job, reached) <==> !SomeProblem<E>(config, reached)
  {
    forall j | 0 <= j < |reached|
      ensures job.check(reached[j].fields).None? <==> forall c :: Problem<E>(config, reached[j].fields, c).None?
    {
      CheckPassesExactly<E>(config, reached[j].fields);
    }
  }

  lemma DefaultsLacking<E>(configs: seq<Config>, ms: seq<AccountMutation>)
    requires |configs| == |ms|
    ensures NoErrors(Errors<E>(configs, ms)) <==> !LacksDefault(configs, ms)
  {
    var errs := Errors<E>(configs, ms);
    forall j | 0 <= j < |ms|
      ensures errs[j].Some? <==> exists c :: Turn(c) < 4 && Given(ms[j], c).None? && DefaultOf(configs[j], c).None?
    {
      DefaultsFailExactly<E>(configs[j], ms[j]);
    }
  }

  // A forwarding hook that sets created_at.
  function SetsCreatedAt<E>(now: Time): Program<AccountMutation, CreateError<E>>
  {
    Edit((m: AccountMutation) => m.(times := m.times.(createdAt := Some(now))), Next(Return(Last), Return(Last)))
  }

  /** Such a hook does make the difference: without a default for created_at, bulk creation
      saves the account that the single builder refuses. */
  lemma HookHidesFailedDefaults<D, E>(
    config: Config, create: Insert<D, E>, m: AccountMutation, now: Time,
    s: State<AccountMutation, AccountSpec, AccountRow, D>)
    requires config.createdAt.None? && m.times.createdAt.None?
    requires |s.slots| == 1 && s.slots[0].fields == ApplyDefaults<E>(config, m).0
    requires var filled := m.(times := m.times.(createdAt := Some(now)));
      Check<E>(config, filled).None? && create(s.store, SpecOf(config, filled)).Ok?
    ensures var job := AccountJob(config, [[SetsCreatedAt(now)]], create);
      && SaveAll(job, s).1.Done?
      && SaveStrictly(job, job.hooks, FieldsOf(s.slots), Errors([config], [m]), s.store)
         == ([], s.store, Failed(Uninitialized(Stamp(CreatedAt))))
  {
    var job := AccountJob(config, [[SetsCreatedAt(now)]], create);
    var filled := m.(times := m.times.(createdAt := Some(now)));
    var hook: Program<AccountMutation, CreateError<E>> := SetsCreatedAt(now);
    var a: Arrival<AccountMutation, CreateError<E>> := Arrival(filled, None);
    assert Passed(hook, m) == Passed(hook.rest, filled) == a;
    assert Reach(job.hooks[0], 0, m) == ReachFrom(job.hooks[0], 1, a) == Reach(job.hooks[0], 1, filled) == a;
    assert ReachedBy(job, s.slots) == [a];
    assert SpecsOf(job, [a])[..0] == [];
    assert Batch(job.create, s.store, SpecsOf(job, [a])[..0]) == Ok((s.store, []));
    AllOrNothing(job, s);
  }
}
