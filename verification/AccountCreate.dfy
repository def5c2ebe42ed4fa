/** Creating an account: the mutation a builder collects, the node and create spec made from
    it, and reading the stored row back. */
module AccountCreate {
  import opened Wrappers
  import opened AccountColumns
  import opened AccountScan

  // The fields and edges set on a builder, grouped as in the struct. A JSON field may be
  // set to the nil map.
  datatype SetCounts = SetCounts(concurrency: Option<int>, loadFactor: Option<int>, priority: Option<int>)

  datatype SetTexts = SetTexts(
    name: Option<string>,
    notes: Option<string>,
    platform: Option<string>,
    accountType: Option<string>,
    status: Option<string>,
    errorMessage: Option<string>,
    tempUnschedulableReason: Option<string>,
    sessionWindowStatus: Option<string>)

  datatype SetTimes = SetTimes(
    createdAt: Option<Time>,
    updatedAt: Option<Time>,
    deletedAt: Option<Time>,
    lastUsedAt: Option<Time>,
    expiresAt: Option<Time>,
    rateLimitedAt: Option<Time>,
    rateLimitResetAt: Option<Time>,
    overloadUntil: Option<Time>,
    tempUnschedulableUntil: Option<Time>,
    sessionWindowStart: Option<Time>,
    sessionWindowEnd: Option<Time>)

  datatype SetFlags = SetFlags(autoPauseOnExpired: Option<bool>, schedulable: Option<bool>)

  datatype SetJsons = SetJsons(credentials: Option<Option<JsonObject>>, extra: Option<Option<JsonObject>>)

  datatype AccountMutation = AccountMutation(
    counts: SetCounts,
    texts: SetTexts,
    times: SetTimes,
    flags: SetFlags,
    json: SetJsons,
    rateMultiplier: Option<real>,
    groups: set<int>,
    proxy: Option<int>,
    usageLogs: set<int>)

  /** The variables of package account: default values, where None is a default function
      that was never initialized, and validators. */
  datatype Config = Config(
    createdAt: Option<Time>,
    updatedAt: Option<Time>,
    credentials: Option<Option<JsonObject>>,
    extra: Option<Option<JsonObject>>,
    concurrency: int,
    priority: int,
    rateMultiplier: real,
    status: string,
    autoPauseOnExpired: bool,
    schedulable: bool,
    valid: TextColumn -> string -> bool,
    joinPriority: int,
    joinCreatedAt: Time)

  datatype CreateError<+E> =
    | Uninitialized(c: Column)
    | Missing(c: Column)
    | Invalid(c: Column)
    | Rejected(error: E)

  // The groups edge carries the defaults of the join entity.
  datatype GroupEdge = GroupEdge(ids: set<int>, priority: int, createdAt: Time)

  datatype AccountSpec = AccountSpec(record: Record, groups: Option<GroupEdge>, usageLogs: set<int>)

  // The value the mutation holds for a column; the proxy edge is the foreign key column.
  function Given(m: AccountMutation, c: Column): (cell: Option<Cell>)
    ensures cell.Some? ==> !c.Other? && Readable(c, cell.value) && cell.value != Destination(c)
  {
    match c
    case Whole(f) => var v := GivenInt(m, f); if v.Some? then Some(Int64(v)) else None
    case Word(f) => var v := GivenText(m.texts, f); if v.Some? then Some(Text(v)) else None
    case Stamp(f) => var v := GivenTime(m.times, f); if v.Some? then Some(Moment(v)) else None
    case Flag(f) => var v := GivenBool(m.flags, f); if v.Some? then Some(Boolean(v)) else None
    case Json(f) => var v := GivenJson(m.json, f); if v.Some? then Some(Bytes(Encode(v.value))) else None
    case RateMultiplier => if m.rateMultiplier.Some? then Some(Float64(m.rateMultiplier)) else None
    case Other(_) => None
  }

  function GivenInt(m: AccountMutation, c: IntColumn): Option<int>
  {
    match c
    case ID => None
    case ProxyID => m.proxy
    case Concurrency => m.counts.concurrency
    case LoadFactor => m.counts.loadFactor
    case Priority => m.counts.priority
  }

  function GivenText(m: SetTexts, c: TextColumn): Option<string>
  {
    match c
    case Name => m.name
    case Notes => m.notes
    case Platform => m.platform
    case Type => m.accountType
    case Status => m.status
    case ErrorMessage => m.errorMessage
    case TempUnschedulableReason => m.tempUnschedulableReason
    case SessionWindowStatus => m.sessionWindowStatus
  }

  function GivenTime(m: SetTimes, c: TimeColumn): Option<Time>
  {
    match c
    case CreatedAt => m.createdAt
    case UpdatedAt => m.updatedAt
    case DeletedAt => m.deletedAt
    case LastUsedAt => m.lastUsedAt
    case ExpiresAt => m.expiresAt
    case RateLimitedAt => m.rateLimitedAt
    case RateLimitResetAt => m.rateLimitResetAt
    case OverloadUntil => m.overloadUntil
    case TempUnschedulableUntil => m.tempUnschedulableUntil
    case SessionWindowStart => m.sessionWindowStart
    case SessionWindowEnd => m.sessionWindowEnd
  }

  function GivenBool(m: SetFlags, c: BoolColumn): Option<bool>
  {
    match c
    case AutoPauseOnExpired => m.autoPauseOnExpired
    case Schedulable => m.schedulable
  }

  function GivenJson(m: SetJsons, c: JsonColumn): Option<Option<JsonObject>>
  {
    match c
    case Credentials => m.credentials
    case Extra => m.extra
  }

  function Or<T>(v: Option<T>, default: T): T
  {
    if v.Some? then v.value else default
  }

  // The node of createSpec: set fields have their value, the others their zero.
  function NodeOf(m: AccountMutation): AccountRow
  {
    AccountRow(
      Counts(0, m.proxy, Or(m.counts.concurrency, 0), m.counts.loadFactor, Or(m.counts.priority, 0)),
      NodeTexts(m.texts),
      NodeTimes(m.times),
      Flags(Or(m.flags.autoPauseOnExpired, false), Or(m.flags.schedulable, false)),
      Jsons(Or(m.json.credentials, None), Or(m.json.extra, None)),
      Or(m.rateMultiplier, 0.0))
  }

  function NodeTexts(m: SetTexts): Texts
  {
    Texts(Or(m.name, ""), m.notes, Or(m.platform, ""), Or(m.accountType, ""), Or(m.status, ""),
          m.errorMessage, m.tempUnschedulableReason, m.sessionWindowStatus)
  }

  function NodeTimes(m: SetTimes): Times
  {
    Times(Or(m.createdAt, 0), Or(m.updatedAt, 0), m.deletedAt, m.lastUsedAt, m.expiresAt, m.rateLimitedAt,
          m.rateLimitResetAt, m.overloadUntil, m.tempUnschedulableUntil, m.sessionWindowStart, m.sessionWindowEnd)
  }

  function SpecOf(config: Config, m: AccountMutation): AccountSpec
  {
    AccountSpec(
      map c | c in COLUMNS && Given(m, c).Some? :: Given(m, c).value,
      if m.groups == {} then None else Some(GroupEdge(m.groups, config.joinPriority, config.joinCreatedAt)),
      m.usageLogs)
  }

  function WithID(node: AccountRow, id: int): AccountRow
  {
    node.(counts := node.counts.(id := id))
  }

  // The row the insert stores for a spec, under the ID it assigns.
  function Stored(spec: AccountSpec, id: int): Record
  {
    spec.record[Whole(ID) := Int64(Some(id))]
  }

  function Position(c: Column): nat
    requires !c.Other?
  {
    match c
    case Whole(f) =>
      (match f case ID => 0 case ProxyID => 10 case Concurrency => 11 case LoadFactor => 12 case Priority => 13)
    case Word(f) =>
      (match f
       case Name => 4 case Notes => 5 case Platform => 6 case Type => 7
       case Status => 15 case ErrorMessage => 16 case TempUnschedulableReason => 25 case SessionWindowStatus => 28)
    case Stamp(f) =>
      (match f
       case CreatedAt => 1 case UpdatedAt => 2 case DeletedAt => 3 case LastUsedAt => 17 case ExpiresAt => 18
       case RateLimitedAt => 21 case RateLimitResetAt => 22 case OverloadUntil => 23
       case TempUnschedulableUntil => 24 case SessionWindowStart => 26 case SessionWindowEnd => 27)
    case Flag(f) => (match f case AutoPauseOnExpired => 19 case Schedulable => 20)
    case Json(f) => (match f case Credentials => 8 case Extra => 9)
    case RateMultiplier => 14
  }

  lemma EveryColumnListed(c: Column)
    requires !c.Other?
    ensures c in COLUMNS
  {
    var k := Position(c);
    assert |COLUMNS| == 29;
    assert COLUMNS[k] == c;
  }

  // The default selection, account.Columns, selects every column.
  lemma AllListed(columns: seq<Column>)
    requires forall c | c in COLUMNS :: c in columns
    ensures forall c: Column | !c.Other? :: c in columns
  {
    forall c: Column | !c.Other? ensures c in columns {
      EveryColumnListed(c);
    }
  }

  /** createSpec puts every set field into the node and into the record alike, and leaves
      the others at their zero and out of the record. */
  lemma NodeHolds(config: Config, m: AccountMutation, c: Column)
    requires !c.Other?
    ensures Field(NodeOf(m), c) == Or(Given(m, c), Field(ZERO, c))
    ensures Read(SpecOf(config, m).record, c) == Or(Given(m, c), Destination(c))
  {
    EveryColumnListed(c);
    match c
    case Whole(_) =>
    case Word(f) =>
      assert TextField(NodeTexts(m.texts), f) ==
             if GivenText(m.texts, f).Some? then GivenText(m.texts, f) else TextField(ZERO.texts, f);
    case Stamp(f) =>
      assert TimeField(NodeTimes(m.times), f) ==
             if GivenTime(m.times, f).Some? then GivenTime(m.times, f) else TimeField(ZERO.times, f);
    case Flag(_) =>
    case Json(_) =>
    case RateMultiplier =>
  }

  // The stored row holds, column by column, the node that was returned.
  lemma StoredHolds(config: Config, m: AccountMutation, id: int, c: Column)
    requires !c.Other?
    ensures Loaded(Stored(SpecOf(config, m), id), c) == Field(WithID(NodeOf(m), id), c)
  {
    NodeHolds(config, m, c);
    if c == Whole(ID) {
    } else {
      assert Read(Stored(SpecOf(config, m), id), c) == Read(SpecOf(config, m).record, c);
      assert Field(WithID(NodeOf(m), id), c) == Field(NodeOf(m), c);
    }
  }

  lemma StoredIsValid(config: Config, m: AccountMutation, id: int)
    ensures ValidRecord(Stored(SpecOf(config, m), id))
  {
  }

  // The values a query of these columns scans from a stored row.
  ghost predicate Scans(record: Record, columns: seq<Column>, values: seq<Cell>)
  {
    |columns| <= |values| && forall k | 0 <= k < |columns| :: values[k] == Read(record, columns[k])
  }

  ghost predicate HoldsRow(record: Record, row: AccountRow)
  {
    ValidRecord(record) && forall c: Column | !c.Other? :: Loaded(record, c) == Field(row, c)
  }

  // Reading any columns of a row that holds a struct gives the struct's values there.
  lemma ReadsBack(record: Record, row: AccountRow, columns: seq<Column>, values: seq<Cell>, c: Column)
    requires HoldsRow(record, row) && Scans(record, columns, values) && !c.Other?
    ensures AssignFirst(Scanned(ZERO, map[]), columns, values, |columns|).1.None?
    ensures Field(AssignFirst(Scanned(ZERO, map[]), columns, values, |columns|).0.row, c) ==
            if c in columns then Field(row, c) else Field(ZERO, c)
  {
    assert columns[..|columns|] == columns;
    ReadingARecord(record, columns, values, |columns|, c);
  }

  lemma ReadsBackWhole(record: Record, row: AccountRow, columns: seq<Column>, values: seq<Cell>)
    requires HoldsRow(record, row) && Scans(record, columns, values)
    requires forall c: Column | !c.Other? :: c in columns
    ensures AssignFirst(Scanned(ZERO, map[]), columns, values, |columns|).1.None?
    ensures AssignFirst(Scanned(ZERO, map[]), columns, values, |columns|).0.row == row
  {
    var s := AssignFirst(Scanned(ZERO, map[]), columns, values, |columns|).0;
    ReadsBack(record, row, columns, values, RateMultiplier);
    forall c: Column | !c.Other? ensures Field(s.row, c) == Field(row, c) {
      ReadsBack(record, row, columns, values, c);
    }
    FieldsDetermineRow(s.row, row);
  }

  /** The row that is stored holds the node that is returned. */
  lemma StoredHoldsNode(config: Config, m: AccountMutation, id: int)
    ensures HoldsRow(Stored(SpecOf(config, m), id), WithID(NodeOf(m), id))
  {
    StoredIsValid(config, m, id);
    forall c: Column | !c.Other? ensures Loaded(Stored(SpecOf(config, m), id), c) == Field(WithID(NodeOf(m), id), c) {
      StoredHolds(config, m, id, c);
    }
  }

  /** Create, then read: scanning any columns of the stored row into a fresh node gives in
      each of them the value of the node that was returned. */
  lemma {:induction false} CreateThenReadField(
    config: Config, m: AccountMutation, id: int, columns: seq<Column>, values: seq<Cell>, c: Column)
    requires Scans(Stored(SpecOf(config, m), id), columns, values) && !c.Other?
    ensures AssignFirst(Scanned(ZERO, map[]), columns, values, |columns|).1.None?
    ensures Field(AssignFirst(Scanned(ZERO, map[]), columns, values, |columns|).0.row, c) ==
            if c in columns then Field(WithID(NodeOf(m), id), c) else Field(ZERO, c)
  {
    StoredHoldsNode(config, m, id);
    ReadsBack(Stored(SpecOf(config, m), id), WithID(NodeOf(m), id), columns, values, c);
  }

  /** With all columns selected, in any order and with repeats, the whole node is rebuilt. */
  lemma CreateThenRead(config: Config, m: AccountMutation, id: int, columns: seq<Column>, values: seq<Cell>)
    requires Scans(Stored(SpecOf(config, m), id), columns, values)
    requires forall c: Column | !c.Other? :: c in columns
    ensures AssignFirst(Scanned(ZERO, map[]), columns, values, |columns|).1.None?
    ensures AssignFirst(Scanned(ZERO, map[]), columns, values, |columns|).0.row == WithID(NodeOf(m), id)
  {
    StoredHoldsNode(config, m, id);
    ReadsBackWhole(Stored(SpecOf(config, m), id), WithID(NodeOf(m), id), columns, values);
  }

  /** So it is by the default selection, account.Columns. */
  lemma CreateThenReadAll(config: Config, m: AccountMutation, id: int, columns: seq<Column>, values: seq<Cell>)
    requires columns == COLUMNS && Scans(Stored(SpecOf(config, m), id), columns, values)
    ensures AssignFirst(Scanned(ZERO, map[]), columns, values, |columns|).1.None?
    ensures AssignFirst(Scanned(ZERO, map[]), columns, values, |columns|).0.row == WithID(NodeOf(m), id)
  {
    AllListed(columns);
    CreateThenRead(config, m, id, columns, values);
  }
}
