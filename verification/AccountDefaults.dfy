/** Defaults and checks of the account builder, and why failing defaults make check fail. */
module AccountDefaults {
  import opened Wrappers
  import opened AccountColumns
  import opened AccountCreate

  function Fallback<T>(v: Option<T>, default: Option<T>): Option<T>
  {
    if v.Some? then v else default
  }

  // defaults: unset fields take their default, in this order; a default function that was
  // never initialized ends it, with the fields before it already set.
  function ApplyDefaults<E>(config: Config, m: AccountMutation): (AccountMutation, Option<CreateError<E>>)
  {
    var m1 := m.(times := m.times.(createdAt := Fallback(m.times.createdAt, config.createdAt)));
    if m1.times.createdAt.None? then (m, Some(Uninitialized(Stamp(CreatedAt))))
    else
      var m2 := m1.(times := m1.times.(updatedAt := Fallback(m.times.updatedAt, config.updatedAt)));
      if m2.times.updatedAt.None? then (m1, Some(Uninitialized(Stamp(UpdatedAt))))
      else
        var m3 := m2.(json := m2.json.(credentials := Fallback(m.json.credentials, config.credentials)));
        if m3.json.credentials.None? then (m2, Some(Uninitialized(Json(Credentials))))
        else
          var m4 := m3.(json := m3.json.(extra := Fallback(m.json.extra, config.extra)));
          if m4.json.extra.None? then (m3, Some(Uninitialized(Json(Extra)))) else (ApplyConstants(config, m4), None)
  }

  function ApplyConstants(config: Config, m: AccountMutation): AccountMutation
  {
    m.(counts := m.counts.(concurrency := Some(Or(m.counts.concurrency, config.concurrency)),
                           priority := Some(Or(m.counts.priority, config.priority))),
       rateMultiplier := Some(Or(m.rateMultiplier, config.rateMultiplier)),
       texts := m.texts.(status := Some(Or(m.texts.status, config.status))),
       flags := SetFlags(Some(Or(m.flags.autoPauseOnExpired, config.autoPauseOnExpired)),
                         Some(Or(m.flags.schedulable, config.schedulable))))
  }

  // The value a column defaults to, if it has one that can be computed.
  function DefaultOf(config: Config, c: Column): Option<Cell>
  {
    match c
    case Stamp(CreatedAt) => if config.createdAt.Some? then Some(Moment(config.createdAt)) else None
    case Stamp(UpdatedAt) => if config.updatedAt.Some? then Some(Moment(config.updatedAt)) else None
    case Json(Credentials) =>
      if config.credentials.Some? then Some(Bytes(AccountScan.Encode(config.credentials.value))) else None
    case Json(Extra) => if config.extra.Some? then Some(Bytes(AccountScan.Encode(config.extra.value))) else None
    case Whole(Concurrency) => Some(Int64(Some(config.concurrency)))
    case Whole(Priority) => Some(Int64(Some(config.priority)))
    case RateMultiplier => Some(Float64(Some(config.rateMultiplier)))
    case Word(Status) => Some(Text(Some(config.status)))
    case Flag(AutoPauseOnExpired) => Some(Boolean(Some(config.autoPauseOnExpired)))
    case Flag(Schedulable) => Some(Boolean(Some(config.schedulable)))
    case _ => None
  }

  // The columns with a default function, in the order they are applied; the constants follow.
  function Turn(c: Column): nat
  {
    match c
    case Stamp(CreatedAt) => 0
    case Stamp(UpdatedAt) => 1
    case Json(Credentials) => 2
    case Json(Extra) => 3
    case _ => 4
  }

  /** Defaults never overwrite, and fill exactly the columns before the first one whose
      default is both needed and missing. */
  lemma DefaultsFill<E>(config: Config, m: AccountMutation, c: Column)
    ensures var (after, err) := ApplyDefaults<E>(config, m);
      && (err.Some? ==>
            && err.value.Uninitialized? && Turn(err.value.c) < 4
            && Given(m, err.value.c).None? && DefaultOf(config, err.value.c).None?)
      && Given(after, c) ==
         (if Given(m, c).Some? then Given(m, c)
          else if err.None? || Turn(c) < Turn(err.value.c) then DefaultOf(config, c)
          else None)
      && after.groups == m.groups && after.proxy == m.proxy && after.usageLogs == m.usageLogs
  {
  }

  /** They fail exactly when some unset column has an uninitialized default function. */
  lemma DefaultsFailExactly<E>(config: Config, m: AccountMutation)
    ensures ApplyDefaults<E>(config, m).1.Some? <==>
            exists c :: Turn(c) < 4 && Given(m, c).None? && DefaultOf(config, c).None?
  {
    var err := ApplyDefaults<E>(config, m).1;
    if err.Some? {
      DefaultsFill<E>(config, m, err.value.c);
    } else {
      forall c | Turn(c) < 4 ensures Given(m, c).Some? || DefaultOf(config, c).Some? {
        DefaultsFill<E>(config, m, c);
      }
    }
  }

  ghost predicate Lacks(config: Config, m: AccountMutation, c: Column)
  {
    Given(m, c).None? && DefaultOf(config, c).None?
  }

  /** The first column in the order of the generated code that lacks a value ends the defaults. */
  lemma DefaultsOrder<E>(config: Config, m: AccountMutation, k: nat)
    requires k < 4
    ensures var columns := [Stamp(CreatedAt), Stamp(UpdatedAt), Json(Credentials), Json(Extra)];
      Lacks(config, m, columns[k]) && (forall j | 0 <= j < k :: !Lacks(config, m, columns[j])) <==>
      ApplyDefaults<E>(config, m).1 == Some(Uninitialized(columns[k]))
  {
    var columns := [Stamp(CreatedAt), Stamp(UpdatedAt), Json(Credentials), Json(Extra)];
    assert columns[0] == Stamp(CreatedAt) && columns[1] == Stamp(UpdatedAt) && columns[2] == Json(Credentials);
    forall j | 0 <= j < 4 ensures Turn(columns[j]) == j {
    }
    var err := ApplyDefaults<E>(config, m).1;
    if err.Some? {
      DefaultsFill<E>(config, m, err.value.c);
    }
    forall j | 0 <= j < 4 && err.Some? && j < Turn(err.value.c)
      ensures !Lacks(config, m, columns[j])
    {
      DefaultsFill<E>(config, m, columns[j]);
    }
  }

  // check, in the order of the generated code.
  function Check<E>(config: Config, m: AccountMutation): Option<CreateError<E>>
  {
    if m.times.createdAt.None? then Some(Missing(Stamp(CreatedAt)))
    else if m.times.updatedAt.None? then Some(Missing(Stamp(UpdatedAt)))
    else if m.texts.name.None? then Some(Missing(Word(Name)))
    else if !config.valid(Name)(m.texts.name.value) then Some(Invalid(Word(Name)))
    else if m.texts.platform.None? then Some(Missing(Word(Platform)))
    else if !config.valid(Platform)(m.texts.platform.value) then Some(Invalid(Word(Platform)))
    else if m.texts.accountType.None? then Some(Missing(Word(Type)))
    else if !config.valid(Type)(m.texts.accountType.value) then Some(Invalid(Word(Type)))
    else if m.json.credentials.None? then Some(Missing(Json(Credentials)))
    else if m.json.extra.None? then Some(Missing(Json(Extra)))
    else if m.counts.concurrency.None? then Some(Missing(Whole(Concurrency)))
    else if m.counts.priority.None? then Some(Missing(Whole(Priority)))
    else if m.rateMultiplier.None? then Some(Missing(RateMultiplier))
    else if m.texts.status.None? then Some(Missing(Word(Status)))
    else if !config.valid(Status)(m.texts.status.value) then Some(Invalid(Word(Status)))
    else if m.flags.autoPauseOnExpired.None? then Some(Missing(Flag(AutoPauseOnExpired)))
    else if m.flags.schedulable.None? then Some(Missing(Flag(Schedulable)))
    else if m.texts.sessionWindowStatus.Some?
            && !config.valid(SessionWindowStatus)(m.texts.sessionWindowStatus.value) then
      Some(Invalid(Word(SessionWindowStatus)))
    else None
  }

  // The columns check looks at, in order; all but the last are required.
  const CHECKED: seq<Column> := [
    Stamp(CreatedAt), Stamp(UpdatedAt), Word(Name), Word(Platform), Word(Type), Json(Credentials), Json(Extra),
    Whole(Concurrency), Whole(Priority), RateMultiplier, Word(Status), Flag(AutoPauseOnExpired), Flag(Schedulable),
    Word(SessionWindowStatus)]

  predicate Required(c: Column)
  {
    match c
    case Stamp(f) => f.CreatedAt? || f.UpdatedAt?
    case Word(f) => f.Name? || f.Platform? || f.Type? || f.Status?
    case Json(_) => true
    case Whole(f) => f.Concurrency? || f.Priority?
    case Flag(_) => true
    case RateMultiplier => true
    case Other(_) => false
  }

  predicate Validated(c: Column)
  {
    c.Word? && (Required(c) || c.text.SessionWindowStatus?)
  }

  // What is wrong with one column.
  function Problem<E>(config: Config, m: AccountMutation, c: Column): Option<CreateError<E>>
  {
    if Given(m, c).None? then if Required(c) then Some(Missing(c)) else None
    else if Validated(c) && !config.valid(c.text)(Given(m, c).value.s.value) then Some(Invalid(c))
    else None
  }

  // The first problem among the given columns from position k on.
  function FirstProblem<E>(problem: Column -> Option<E>, columns: seq<Column>, k: nat): Option<E>
    requires k <= |columns|
    decreases |columns| - k
  {
    if k == |columns| then None else Otherwise(problem(columns[k]), FirstProblem(problem, columns, k + 1))
  }

  // The order of the columns written out.
  lemma ProblemsInOrder<E>(problem: Column -> Option<E>)
    ensures FirstProblem(problem, CHECKED, 0) ==
            Otherwise(problem(Stamp(CreatedAt)), Otherwise(problem(Stamp(UpdatedAt)),
            Otherwise(problem(Word(Name)), Otherwise(problem(Word(Platform)),
            Otherwise(problem(Word(Type)), FirstProblem(problem, CHECKED, 5))))))
    ensures FirstProblem(problem, CHECKED, 5) ==
            Otherwise(problem(Json(Credentials)), Otherwise(problem(Json(Extra)),
            Otherwise(problem(Whole(Concurrency)), Otherwise(problem(Whole(Priority)),
            Otherwise(problem(RateMultiplier), FirstProblem(problem, CHECKED, 10))))))
    ensures FirstProblem(problem, CHECKED, 10) ==
            Otherwise(problem(Word(Status)), Otherwise(problem(Flag(AutoPauseOnExpired)),
            Otherwise(problem(Flag(Schedulable)), problem(Word(SessionWindowStatus)))))
  {
    var p := problem;
    assert FirstProblem(p, CHECKED, 12) ==
           Otherwise(p(CHECKED[12]), Otherwise(p(CHECKED[13]), FirstProblem(p, CHECKED, 14)));
    assert FirstProblem(p, CHECKED, 10) ==
           Otherwise(p(CHECKED[10]), Otherwise(p(CHECKED[11]), FirstProblem(p, CHECKED, 12)));
    assert FirstProblem(p, CHECKED, 8) ==
           Otherwise(p(CHECKED[8]), Otherwise(p(CHECKED[9]), FirstProblem(p, CHECKED, 10)));
    assert FirstProblem(p, CHECKED, 6) ==
           Otherwise(p(CHECKED[6]), Otherwise(p(CHECKED[7]), FirstProblem(p, CHECKED, 8)));
    assert FirstProblem(p, CHECKED, 5) == Otherwise(p(CHECKED[5]), FirstProblem(p, CHECKED, 6));
    assert FirstProblem(p, CHECKED, 3) ==
           Otherwise(p(CHECKED[3]), Otherwise(p(CHECKED[4]), FirstProblem(p, CHECKED, 5)));
    assert FirstProblem(p, CHECKED, 1) ==
           Otherwise(p(CHECKED[1]), Otherwise(p(CHECKED[2]), FirstProblem(p, CHECKED, 3)));
    assert FirstProblem(p, CHECKED, 0) == Otherwise(p(CHECKED[0]), FirstProblem(p, CHECKED, 1));
  }

  function Problems<E>(config: Config, m: AccountMutation): Column -> Option<CreateError<E>>
  {
    c => Problem(config, m, c)
  }

  lemma EarlyChecks<E>(config: Config, m: AccountMutation)
    ensures Problem<E>(config, m, Stamp(CreatedAt)) ==
            if m.times.createdAt.None? then Some(Missing(Stamp(CreatedAt))) else None
    ensures Problem<E>(config, m, Stamp(UpdatedAt)) ==
            if m.times.updatedAt.None? then Some(Missing(Stamp(UpdatedAt))) else None
    ensures Problem<E>(config, m, Word(Name)) == CheckText(config, m.texts.name, Name)
    ensures Problem<E>(config, m, Word(Platform)) == CheckText(config, m.texts.platform, Platform)
    ensures Problem<E>(config, m, Word(Type)) == CheckText(config, m.texts.accountType, Type)
  {
  }

  lemma LateChecks<E>(config: Config, m: AccountMutation)
    ensures Problem<E>(config, m, Json(Credentials)) ==
            if m.json.credentials.None? then Some(Missing(Json(Credentials))) else None
    ensures Problem<E>(config, m, Json(Extra)) == if m.json.extra.None? then Some(Missing(Json(Extra))) else None
    ensures Problem<E>(config, m, Whole(Concurrency)) ==
            if m.counts.concurrency.None? then Some(Missing(Whole(Concurrency))) else None
    ensures Problem<E>(config, m, Whole(Priority)) ==
            if m.counts.priority.None? then Some(Missing(Whole(Priority))) else None
    ensures Problem<E>(config, m, RateMultiplier) ==
            if m.rateMultiplier.None? then Some(Missing(RateMultiplier)) else None
    ensures Problem<E>(config, m, Word(Status)) == CheckText(config, m.texts.status, Status)
    ensures Problem<E>(config, m, Flag(AutoPauseOnExpired)) ==
            if m.flags.autoPauseOnExpired.None? then Some(Missing(Flag(AutoPauseOnExpired))) else None
    ensures Problem<E>(config, m, Flag(Schedulable)) ==
            if m.flags.schedulable.None? then Some(Missing(Flag(Schedulable))) else None
    ensures Problem<E>(config, m, Word(SessionWindowStatus)) ==
            if m.texts.sessionWindowStatus.None? then None
            else CheckText(config, m.texts.sessionWindowStatus, SessionWindowStatus)
  {
  }

  function CheckText<E>(config: Config, v: Option<string>, c: TextColumn): Option<CreateError<E>>
  {
    if v.None? then Some(Missing(Word(c))) else if !config.valid(c)(v.value) then Some(Invalid(Word(c))) else None
  }

  /** check reports the problem of the first column that has one, in its order of columns. */
  lemma CheckFindsFirst<E>(config: Config, m: AccountMutation)
    ensures Check<E>(config, m) == FirstProblem(Problems(config, m), CHECKED, 0)
  {
    ProblemsInOrder<CreateError<E>>(Problems(config, m));
    EarlyChecks<E>(config, m);
    LateChecks<E>(config, m);
  }

  // The column is set, unless it may be left out, and its text is valid, if it is one that is validated.
  ghost predicate Fine(config: Config, m: AccountMutation, c: Column)
  {
    && (Given(m, c).None? ==> c == Word(SessionWindowStatus))
    && (c in {Word(Name), Word(Platform), Word(Type), Word(Status), Word(SessionWindowStatus)} && Given(m, c).Some? ==>
          config.valid(c.text)(Given(m, c).value.s.value))
  }

  lemma ProblemMeans<E>(config: Config, m: AccountMutation, k: nat)
    requires k < |CHECKED|
    ensures Problem<E>(config, m, CHECKED[k]) ==
            if Fine(config, m, CHECKED[k]) then None
            else Some(if Given(m, CHECKED[k]).None? then Missing(CHECKED[k]) else Invalid(CHECKED[k]))
  {
  }

  lemma {:induction false} FirstProblemAt<E>(problem: Column -> Option<E>, columns: seq<Column>, i: nat, k: nat)
    requires i <= k < |columns| && problem(columns[k]).Some?
    requires forall j | i <= j < k :: problem(columns[j]).None?
    ensures FirstProblem(problem, columns, i) == problem(columns[k])
    decreases k - i
  {
    if i == k {
    } else {
      FirstProblemAt(problem, columns, i + 1, k);
    }
  }

  /** In the order of the generated code: the first column that is not fine is reported, as
      missing when it is not set and as invalid otherwise. */
  lemma CheckOrder<E>(config: Config, m: AccountMutation, k: nat)
    requires k < 14
    ensures var columns := [
              Stamp(CreatedAt), Stamp(UpdatedAt), Word(Name), Word(Platform), Word(Type), Json(Credentials),
              Json(Extra), Whole(Concurrency), Whole(Priority), RateMultiplier, Word(Status),
              Flag(AutoPauseOnExpired), Flag(Schedulable), Word(SessionWindowStatus)];
      !Fine(config, m, columns[k]) && (forall j | 0 <= j < k :: Fine(config, m, columns[j])) ==>
        Check<E>(config, m) ==
        Some(if Given(m, columns[k]).None? then Missing(columns[k]) else Invalid(columns[k]))
  {
    CheckFindsFirst<E>(config, m);
    if !Fine(config, m, CHECKED[k]) && forall j | 0 <= j < k :: Fine(config, m, CHECKED[j]) {
      forall j | 0 <= j <= k ensures Problems<E>(config, m)(CHECKED[j]).None? <==> Fine(config, m, CHECKED[j]) {
        ProblemMeans<E>(config, m, j);
      }
      ProblemMeans<E>(config, m, k);
      FirstProblemAt(Problems<E>(config, m), CHECKED, 0, k);
    }
  }

  // The columns that can have a problem are the ones check looks at.
  lemma OnlyCheckedFail<E>(config: Config, m: AccountMutation, c: Column)
    requires Problem<E>(config, m, c).Some?
    ensures c in CHECKED
  {
    assert CHECKED[0] == Stamp(CreatedAt) && CHECKED[1] == Stamp(UpdatedAt) && CHECKED[2] == Word(Name);
    assert CHECKED[3] == Word(Platform) && CHECKED[4] == Word(Type) && CHECKED[5] == Json(Credentials);
    assert CHECKED[6] == Json(Extra) && CHECKED[7] == Whole(Concurrency) && CHECKED[8] == Whole(Priority);
    assert CHECKED[9] == RateMultiplier && CHECKED[10] == Word(Status) && CHECKED[11] == Flag(AutoPauseOnExpired);
    assert CHECKED[12] == Flag(Schedulable) && CHECKED[13] == Word(SessionWindowStatus);
  }

  lemma {:induction false} NoProblemFound<E>(problem: Column -> Option<E>, columns: seq<Column>, k: nat)
    requires k <= |columns|
    ensures FirstProblem(problem, columns, k).None? <==> forall j | k <= j < |columns| :: problem(columns[j]).None?
    decreases |columns| - k
  {
    if k == |columns| {
    } else {
      NoProblemFound(problem, columns, k + 1);
    }
  }

  /** It passes exactly when no column of the account has a problem. */
  lemma CheckPassesExactly<E>(config: Config, m: AccountMutation)
    ensures Check<E>(config, m).None? <==> forall c :: Problem<E>(config, m, c).None?
  {
    var problem := Problems<E>(config, m);
    CheckFindsFirst<E>(config, m);
    NoProblemFound(problem, CHECKED, 0);
    forall c ensures problem(c) == Problem<E>(config, m, c) && (problem(c).Some? ==> c in CHECKED) {
      if problem(c).Some? {
        OnlyCheckedFail<E>(config, m, c);
      }
    }
  }

  /** Failing defaults leave a required field unset, so check fails as well, unless a hook
      sets that field in between. The clock may have moved between the two. */
  lemma FailedDefaultsFailCheck<E>(config: Config, other: Config, m: AccountMutation, later: AccountMutation)
    requires ApplyDefaults<E>(config, m).1.Some?
    requires Given(later, ApplyDefaults<E>(config, m).1.value.c).None?
    ensures Check<E>(other, later).Some?
  {
    var c := ApplyDefaults<E>(config, m).1.value.c;
    DefaultsFill<E>(config, m, c);
    CheckPassesExactly<E>(other, later);
    assert Problem<E>(other, later, c) == Some(Missing(c));
  }
}
