/** createSpec step by step: the node and the record of the spec are filled field by field. */
module AccountSpecs {
  import opened Wrappers
  import opened AccountColumns
  import opened AccountScan
  import opened AccountCreate

  // The fields in the order of createSpec, in four groups; the proxy edge comes last.
  const IDENTITY: set<Column> := {
    Stamp(CreatedAt), Stamp(UpdatedAt), Stamp(DeletedAt), Word(Name), Word(Notes), Word(Platform), Word(Type)}

  const SETTINGS: set<Column> := {
    Json(Credentials), Json(Extra), Whole(Concurrency), Whole(LoadFactor), Whole(Priority), RateMultiplier,
    Word(Status)}

  const SCHEDULE: set<Column> := {
    Word(ErrorMessage), Stamp(LastUsedAt), Stamp(ExpiresAt), Flag(AutoPauseOnExpired), Flag(Schedulable),
    Stamp(RateLimitedAt), Stamp(RateLimitResetAt)}

  const WINDOWS: set<Column> := {
    Stamp(OverloadUntil), Stamp(TempUnschedulableUntil), Word(TempUnschedulableReason),
    Stamp(SessionWindowStart), Stamp(SessionWindowEnd), Word(SessionWindowStatus), Whole(ProxyID)}

  lemma EveryColumnPut(c: Column)
    requires !c.Other? && c != Whole(ID)
    ensures c in IDENTITY || c in SETTINGS || c in SCHEDULE || c in WINDOWS
  {
    match c
    case Word(f) =>
      assert f.Name? || f.Notes? || f.Platform? || f.Type? || f.Status? || f.ErrorMessage? || f.TempUnschedulableReason?
             || f.SessionWindowStatus?;
    case Stamp(f) =>
      assert f.CreatedAt? || f.UpdatedAt? || f.DeletedAt? || f.LastUsedAt? || f.ExpiresAt? || f.RateLimitedAt?
             || f.RateLimitResetAt? || f.OverloadUntil? || f.TempUnschedulableUntil? || f.SessionWindowStart?
             || f.SessionWindowEnd?;
    case Whole(f) => assert f.ProxyID? || f.Concurrency? || f.LoadFactor? || f.Priority?;
    case Flag(f) => assert f.AutoPauseOnExpired? || f.Schedulable?;
    case Json(f) => assert f.Credentials? || f.Extra?;
    case RateMultiplier =>
  }

  class Draft {
    var row: AccountRow
    var record: Record
    ghost var done: set<Column>

    // The columns done so far are as the mutation says; the others are untouched.
    ghost predicate Progress(m: AccountMutation)
      reads this
    {
      && (forall c: Column {:trigger Field(row, c)} | !c.Other? ::
            Field(row, c) == if c in done then Or(Given(m, c), Field(ZERO, c)) else Field(ZERO, c))
      && (forall c {:trigger c in record} :: c in record <==> c in done && Given(m, c).Some?)
      && (forall c {:trigger record[c]} | c in record :: record[c] == Given(m, c).value)
    }

    constructor (ghost m: AccountMutation)
      ensures Progress(m) && done == {}
    {
      row, record, done := ZERO, map[], {};
    }

    method PutText(ghost m: AccountMutation, f: TextColumn, v: Option<string>)
      requires Progress(m) && v == GivenText(m.texts, f)
      modifies this
      ensures Progress(m) && done == old(done) + {Word(f)}
    {
      if v.Some? {
        record := record[Word(f) := Text(v)];
        row := row.(texts := AssignText(row.texts, f, v));
      }
      done := done + {Word(f)};
      forall c: Column | !c.Other?
        ensures Field(row, c) == if c == Word(f) && v.Some? then Text(v) else Field(old(row), c)
      {
        if c.Word? { TextLaw(old(row.texts), f, v, c.text); }
      }
    }

    method PutTime(ghost m: AccountMutation, f: TimeColumn, v: Option<Time>)
      requires Progress(m) && v == GivenTime(m.times, f)
      modifies this
      ensures Progress(m) && done == old(done) + {Stamp(f)}
    {
      if v.Some? {
        record := record[Stamp(f) := Moment(v)];
        row := row.(times := AssignTime(row.times, f, v));
      }
      done := done + {Stamp(f)};
      forall c: Column | !c.Other?
        ensures Field(row, c) == if c == Stamp(f) && v.Some? then Moment(v) else Field(old(row), c)
      {
        if c.Stamp? { TimeLaw(old(row.times), f, v, c.time); }
      }
    }

    method PutInt(ghost m: AccountMutation, f: IntColumn, v: Option<int>)
      requires Progress(m) && v == GivenInt(m, f)
      modifies this
      ensures Progress(m) && done == old(done) + {Whole(f)}
    {
      if v.Some? {
        record := record[Whole(f) := Int64(v)];
        row := row.(counts := AssignInt(row.counts, f, v));
      }
      done := done + {Whole(f)};
      forall c: Column | !c.Other?
        ensures Field(row, c) == if c == Whole(f) && v.Some? then Int64(v) else Field(old(row), c)
      {
        if c.Whole? && v.Some? { IntLaw(old(row.counts), f, v, c.int64); }
      }
    }

    method PutFlag(ghost m: AccountMutation, f: BoolColumn, v: Option<bool>)
      requires Progress(m) && v == GivenBool(m.flags, f)
      modifies this
      ensures Progress(m) && done == old(done) + {Flag(f)}
    {
      if v.Some? {
        record := record[Flag(f) := Boolean(v)];
        row := row.(flags := AssignBool(row.flags, f, v));
      }
      done := done + {Flag(f)};
      forall c: Column | !c.Other?
        ensures Field(row, c) == if c == Flag(f) && v.Some? then Boolean(v) else Field(old(row), c)
      {
      }
    }

    method PutJson(ghost m: AccountMutation, f: JsonColumn, v: Option<Option<JsonObject>>)
      requires Progress(m) && v == GivenJson(m.json, f)
      modifies this
      ensures Progress(m) && done == old(done) + {Json(f)}
    {
      if v.Some? {
        record := record[Json(f) := Bytes(Encode(v.value))];
        row := row.(
          json := match f
            case Credentials => row.json.(credentials := v.value)
            case Extra => row.json.(extra := v.value));
      }
      done := done + {Json(f)};
      forall c: Column | !c.Other?
        ensures Field(row, c) == if c == Json(f) && v.Some? then Bytes(Encode(v.value)) else Field(old(row), c)
      {
      }
    }

    method PutRate(ghost m: AccountMutation, v: Option<real>)
      requires Progress(m) && v == m.rateMultiplier
      modifies this
      ensures Progress(m) && done == old(done) + {RateMultiplier}
    {
      if v.Some? {
        record := record[RateMultiplier := Float64(v)];
        row := row.(rateMultiplier := v.value);
      }
      done := done + {RateMultiplier};
      forall c: Column | !c.Other?
        ensures Field(row, c) == if c == RateMultiplier && v.Some? then Float64(v) else Field(old(row), c)
      {
      }
    }

    method PutIdentity(m: AccountMutation)
      requires Progress(m)
      modifies this
      ensures Progress(m) && done == old(done) + IDENTITY
    {
      PutTime(m, CreatedAt, m.times.createdAt);
      PutTime(m, UpdatedAt, m.times.updatedAt);
      PutTime(m, DeletedAt, m.times.deletedAt);
      PutText(m, Name, m.texts.name);
      PutText(m, Notes, m.texts.notes);
      PutText(m, Platform, m.texts.platform);
      PutText(m, Type, m.texts.accountType);
    }

    method PutSettings(m: AccountMutation)
      requires Progress(m)
      modifies this
      ensures Progress(m) && done == old(done) + SETTINGS
    {
      PutJson(m, Credentials, m.json.credentials);
      PutJson(m, Extra, m.json.extra);
      PutInt(m, Concurrency, m.counts.concurrency);
      PutInt(m, LoadFactor, m.counts.loadFactor);
      PutInt(m, Priority, m.counts.priority);
      PutRate(m, m.rateMultiplier);
      PutText(m, Status, m.texts.status);
    }

    method PutSchedule(m: AccountMutation)
      requires Progress(m)
      modifies this
      ensures Progress(m) && done == old(done) + SCHEDULE
    {
      PutText(m, ErrorMessage, m.texts.errorMessage);
      PutTime(m, LastUsedAt, m.times.lastUsedAt);
      PutTime(m, ExpiresAt, m.times.expiresAt);
      PutFlag(m, AutoPauseOnExpired, m.flags.autoPauseOnExpired);
      PutFlag(m, Schedulable, m.flags.schedulable);
      PutTime(m, RateLimitedAt, m.times.rateLimitedAt);
      PutTime(m, RateLimitResetAt, m.times.rateLimitResetAt);
    }

    method PutWindows(m: AccountMutation)
      requires Progress(m)
      modifies this
      ensures Progress(m) && done == old(done) + WINDOWS
    {
      PutTime(m, OverloadUntil, m.times.overloadUntil);
      PutTime(m, TempUnschedulableUntil, m.times.tempUnschedulableUntil);
      PutText(m, TempUnschedulableReason, m.texts.tempUnschedulableReason);
      PutTime(m, SessionWindowStart, m.times.sessionWindowStart);
      PutTime(m, SessionWindowEnd, m.times.sessionWindowEnd);
      PutText(m, SessionWindowStatus, m.texts.sessionWindowStatus);
      PutInt(m, ProxyID, m.proxy);
    }

    // Once every column is done, the draft is the node and the record of the mutation.
    lemma Finished(config: Config, m: AccountMutation)
      requires Progress(m) && forall c: Column | !c.Other? && c != Whole(ID) :: c in done
      ensures row == NodeOf(m) && record == SpecOf(config, m).record
    {
      forall c: Column | !c.Other? ensures Field(row, c) == Field(NodeOf(m), c) {
        NodeHolds(config, m, c);
      }
      FieldsDetermineRow(row, NodeOf(m));
      forall c ensures c in record <==> c in SpecOf(config, m).record {
        if Given(m, c).Some? {
          EveryColumnListed(c);
        }
      }
    }
  }

  /** createSpec: each field that is set goes into the node and the spec; the proxy becomes
      its foreign key, the groups and logs become edges. */
  method CreateSpec(config: Config, m: AccountMutation) returns (node: AccountRow, spec: AccountSpec)
    ensures node == NodeOf(m) && spec == SpecOf(config, m)
    ensures spec.groups.None? <==> m.groups == {}
    ensures spec.groups.Some? ==>
              && spec.groups.value.ids == m.groups
              && spec.groups.value.priority == config.joinPriority
              && spec.groups.value.createdAt == config.joinCreatedAt
    ensures spec.usageLogs == m.usageLogs
  {
    var draft := new Draft(m);
    draft.PutIdentity(m);
    draft.PutSettings(m);
    draft.PutSchedule(m);
    draft.PutWindows(m);
    forall c: Column | !c.Other? && c != Whole(ID) ensures c in draft.done {
      EveryColumnPut(c);
    }
    draft.Finished(config, m);
    node := draft.row;
    spec := AccountSpec(
      draft.record,
      if m.groups == {} then None else Some(GroupEdge(m.groups, config.joinPriority, config.joinCreatedAt)),
      m.usageLogs);
  }
}
