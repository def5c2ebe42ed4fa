/** Create, then read, field by field: each field of the struct that is read is the field that
    was set on the builder, when its column is selected. */
module AccountFields {
  import opened Wrappers
  import opened AccountColumns
  import opened AccountScan
  import opened AccountCreate
  import opened AccountDefaults

  // What reading these columns of the stored row of a mutation gives.
  ghost predicate ReadOf(m: AccountMutation, id: int, columns: seq<Column>, row: AccountRow)
  {
    forall c: Column {:trigger Field(row, c)} | !c.Other? ::
      Field(row, c) == if c in columns then Field(WithID(NodeOf(m), id), c) else Field(ZERO, c)
  }

  lemma ReadOfScan(config: Config, m: AccountMutation, id: int, columns: seq<Column>, values: seq<Cell>)
    requires Scans(Stored(SpecOf(config, m), id), columns, values)
    ensures AssignFirst(Scanned(ZERO, map[]), columns, values, |columns|).1.None?
    ensures ReadOf(m, id, columns, AssignFirst(Scanned(ZERO, map[]), columns, values, |columns|).0.row)
  {
    CreateThenReadField(config, m, id, columns, values, RateMultiplier);
    forall c: Column | !c.Other?
      ensures Field(AssignFirst(Scanned(ZERO, map[]), columns, values, |columns|).0.row, c) ==
              if c in columns then Field(WithID(NodeOf(m), id), c) else Field(ZERO, c)
    {
      CreateThenReadField(config, m, id, columns, values, c);
    }
  }

  // The selected value, or the zero of the field.
  function Selected<T>(columns: seq<Column>, c: Column, v: T, zero: T): T
  {
    if c in columns then v else zero
  }

  lemma CreatedNumbers(m: AccountMutation, id: int, columns: seq<Column>, row: AccountRow)
    requires ReadOf(m, id, columns, row)
    ensures row.counts.id == Selected(columns, Whole(ID), id, 0)
    ensures row.counts.proxyID == Selected(columns, Whole(ProxyID), m.proxy, None)
    ensures row.counts.concurrency == Selected(columns, Whole(Concurrency), Or(m.counts.concurrency, 0), 0)
    ensures row.counts.loadFactor == Selected(columns, Whole(LoadFactor), m.counts.loadFactor, None)
    ensures row.counts.priority == Selected(columns, Whole(Priority), Or(m.counts.priority, 0), 0)
    ensures row.rateMultiplier == Selected(columns, RateMultiplier, Or(m.rateMultiplier, 0.0), 0.0)
  {
    assert Field(row, Whole(ID)) == Int64(Some(row.counts.id));
    assert Field(row, Whole(ProxyID)) == Int64(row.counts.proxyID);
    assert Field(row, Whole(Concurrency)) == Int64(Some(row.counts.concurrency));
    assert Field(row, Whole(LoadFactor)) == Int64(row.counts.loadFactor);
    assert Field(row, Whole(Priority)) == Int64(Some(row.counts.priority));
    assert Field(row, RateMultiplier) == Float64(Some(row.rateMultiplier));
  }

  lemma CreatedTexts(m: AccountMutation, id: int, columns: seq<Column>, row: AccountRow)
    requires ReadOf(m, id, columns, row)
    ensures row.texts.name == Selected(columns, Word(Name), Or(m.texts.name, ""), "")
    ensures row.texts.notes == Selected(columns, Word(Notes), m.texts.notes, None)
    ensures row.texts.platform == Selected(columns, Word(Platform), Or(m.texts.platform, ""), "")
    ensures row.texts.accountType == Selected(columns, Word(Type), Or(m.texts.accountType, ""), "")
    ensures row.texts.status == Selected(columns, Word(Status), Or(m.texts.status, ""), "")
    ensures row.texts.errorMessage == Selected(columns, Word(ErrorMessage), m.texts.errorMessage, None)
    ensures row.texts.tempUnschedulableReason ==
            Selected(columns, Word(TempUnschedulableReason), m.texts.tempUnschedulableReason, None)
    ensures row.texts.sessionWindowStatus ==
            Selected(columns, Word(SessionWindowStatus), m.texts.sessionWindowStatus, None)
  {
    assert Field(row, Word(Name)) == Text(Some(row.texts.name));
    assert Field(row, Word(Notes)) == Text(row.texts.notes);
    assert Field(row, Word(Platform)) == Text(Some(row.texts.platform));
    assert Field(row, Word(Type)) == Text(Some(row.texts.accountType));
    assert Field(row, Word(Status)) == Text(Some(row.texts.status));
    assert Field(row, Word(ErrorMessage)) == Text(row.texts.errorMessage);
    assert Field(row, Word(TempUnschedulableReason)) == Text(row.texts.tempUnschedulableReason);
    assert Field(row, Word(SessionWindowStatus)) == Text(row.texts.sessionWindowStatus);
  }

  lemma CreatedStamps(m: AccountMutation, id: int, columns: seq<Column>, row: AccountRow)
    requires ReadOf(m, id, columns, row)
    ensures row.times.createdAt == Selected(columns, Stamp(CreatedAt), Or(m.times.createdAt, 0), 0)
    ensures row.times.updatedAt == Selected(columns, Stamp(UpdatedAt), Or(m.times.updatedAt, 0), 0)
    ensures row.times.deletedAt == Selected(columns, Stamp(DeletedAt), m.times.deletedAt, None)
    ensures row.times.lastUsedAt == Selected(columns, Stamp(LastUsedAt), m.times.lastUsedAt, None)
    ensures row.times.expiresAt == Selected(columns, Stamp(ExpiresAt), m.times.expiresAt, None)
  {
    assert Field(row, Stamp(CreatedAt)) == Moment(Some(row.times.createdAt));
    assert Field(row, Stamp(UpdatedAt)) == Moment(Some(row.times.updatedAt));
    assert Field(row, Stamp(DeletedAt)) == Moment(row.times.deletedAt);
    assert Field(row, Stamp(LastUsedAt)) == Moment(row.times.lastUsedAt);
    assert Field(row, Stamp(ExpiresAt)) == Moment(row.times.expiresAt);
  }

  lemma CreatedLimits(m: AccountMutation, id: int, columns: seq<Column>, row: AccountRow)
    requires ReadOf(m, id, columns, row)
    ensures row.times.rateLimitedAt == Selected(columns, Stamp(RateLimitedAt), m.times.rateLimitedAt, None)
    ensures row.times.rateLimitResetAt == Selected(columns, Stamp(RateLimitResetAt), m.times.rateLimitResetAt, None)
    ensures row.times.overloadUntil == Selected(columns, Stamp(OverloadUntil), m.times.overloadUntil, None)
    ensures row.times.tempUnschedulableUntil ==
            Selected(columns, Stamp(TempUnschedulableUntil), m.times.tempUnschedulableUntil, None)
    ensures row.times.sessionWindowStart ==
            Selected(columns, Stamp(SessionWindowStart), m.times.sessionWindowStart, None)
    ensures row.times.sessionWindowEnd == Selected(columns, Stamp(SessionWindowEnd), m.times.sessionWindowEnd, None)
  {
    assert Field(row, Stamp(RateLimitedAt)) == Moment(row.times.rateLimitedAt);
    assert Field(row, Stamp(RateLimitResetAt)) == Moment(row.times.rateLimitResetAt);
    assert Field(row, Stamp(OverloadUntil)) == Moment(row.times.overloadUntil);
    assert Field(row, Stamp(TempUnschedulableUntil)) == Moment(row.times.tempUnschedulableUntil);
    assert Field(row, Stamp(SessionWindowStart)) == Moment(row.times.sessionWindowStart);
    assert Field(row, Stamp(SessionWindowEnd)) == Moment(row.times.sessionWindowEnd);
  }

  lemma CreatedFlagsAndJson(m: AccountMutation, id: int, columns: seq<Column>, row: AccountRow)
    requires ReadOf(m, id, columns, row)
    ensures row.flags.autoPauseOnExpired ==
            Selected(columns, Flag(AutoPauseOnExpired), Or(m.flags.autoPauseOnExpired, false), false)
    ensures row.flags.schedulable == Selected(columns, Flag(Schedulable), Or(m.flags.schedulable, false), false)
    ensures row.json.credentials == Selected(columns, Json(Credentials), Or(m.json.credentials, None), None)
    ensures row.json.extra == Selected(columns, Json(Extra), Or(m.json.extra, None), None)
  {
    assert Field(row, Flag(AutoPauseOnExpired)) == Boolean(Some(row.flags.autoPauseOnExpired));
    assert Field(row, Flag(Schedulable)) == Boolean(Some(row.flags.schedulable));
    assert Field(row, Json(Credentials)) == Bytes(Encode(row.json.credentials));
    assert Field(row, Json(Extra)) == Bytes(Encode(row.json.extra));
  }

  /** Defaults, create, then read: a field that was not set reads as its own default. */
  lemma DefaultedNumbers<E>(config: Config, m: AccountMutation, id: int, columns: seq<Column>, row: AccountRow)
    requires ApplyDefaults<E>(config, m).1.None? && ReadOf(ApplyDefaults<E>(config, m).0, id, columns, row)
    ensures row.counts.concurrency ==
            Selected(columns, Whole(Concurrency), Or(m.counts.concurrency, config.concurrency), 0)
    ensures row.counts.priority == Selected(columns, Whole(Priority), Or(m.counts.priority, config.priority), 0)
    ensures row.counts.loadFactor == Selected(columns, Whole(LoadFactor), m.counts.loadFactor, None)
    ensures row.rateMultiplier == Selected(columns, RateMultiplier, Or(m.rateMultiplier, config.rateMultiplier), 0.0)
  {
    CreatedNumbers(ApplyDefaults<E>(config, m).0, id, columns, row);
  }

  lemma DefaultedOthers<E>(config: Config, m: AccountMutation, id: int, columns: seq<Column>, row: AccountRow)
    requires ApplyDefaults<E>(config, m).1.None? && ReadOf(ApplyDefaults<E>(config, m).0, id, columns, row)
    ensures row.texts.status == Selected(columns, Word(Status), Or(m.texts.status, config.status), "")
    ensures row.flags.autoPauseOnExpired ==
            Selected(columns, Flag(AutoPauseOnExpired),
                     Or(m.flags.autoPauseOnExpired, config.autoPauseOnExpired), false)
    ensures row.flags.schedulable ==
            Selected(columns, Flag(Schedulable), Or(m.flags.schedulable, config.schedulable), false)
    ensures config.createdAt.Some? ==>
              row.times.createdAt ==
              Selected(columns, Stamp(CreatedAt), Or(m.times.createdAt, config.createdAt.value), 0)
    ensures config.updatedAt.Some? ==>
              row.times.updatedAt ==
              Selected(columns, Stamp(UpdatedAt), Or(m.times.updatedAt, config.updatedAt.value), 0)
    ensures config.credentials.Some? ==>
              row.json.credentials ==
              Selected(columns, Json(Credentials), Or(m.json.credentials, config.credentials.value), None)
    ensures config.extra.Some? ==>
              row.json.extra == Selected(columns, Json(Extra), Or(m.json.extra, config.extra.value), None)
  {
    var after := ApplyDefaults<E>(config, m).0;
    CreatedTexts(after, id, columns, row);
    CreatedStamps(after, id, columns, row);
    CreatedFlagsAndJson(after, id, columns, row);
  }
}
