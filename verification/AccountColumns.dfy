/** The columns of the accounts table, the typed cells a driver scans them into,
    and the scalar part of the Account struct.

    Columns are enumerated by the Go type of their scan destination; `Other` stands
    for any name that no case of the generated switches matches. Times are numbers,
    and JSON text is kept as the value it encodes. */
module AccountColumns {
  import opened Wrappers

  type Time = int
  type JsonObject = map<string, string>

  datatype IntColumn =
    | ID
    | ProxyID
    | Concurrency
    | LoadFactor
    | Priority

  datatype TextColumn =
    | Name
    | Notes
    | Platform
    | Type
    | Status
    | ErrorMessage
    | TempUnschedulableReason
    | SessionWindowStatus

  datatype TimeColumn =
    | CreatedAt
    | UpdatedAt
    | DeletedAt
    | LastUsedAt
    | ExpiresAt
    | RateLimitedAt
    | RateLimitResetAt
    | OverloadUntil
    | TempUnschedulableUntil
    | SessionWindowStart
    | SessionWindowEnd

  datatype BoolColumn =
    | AutoPauseOnExpired
    | Schedulable

  datatype JsonColumn =
    | Credentials
    | Extra

  datatype Column =
    | Whole(int64: IntColumn)
    | Word(text: TextColumn)
    | Stamp(time: TimeColumn)
    | Flag(flag: BoolColumn)
    | Json(object: JsonColumn)
    | RateMultiplier
    | Other(name: string)

  // account.Columns, in the order of the generated package.
  const COLUMNS: seq<Column> := [
    Whole(ID), Stamp(CreatedAt), Stamp(UpdatedAt), Stamp(DeletedAt), Word(Name), Word(Notes),
    Word(Platform), Word(Type), Json(Credentials), Json(Extra), Whole(ProxyID),
    Whole(Concurrency), Whole(LoadFactor), Whole(Priority), RateMultiplier, Word(Status),
    Word(ErrorMessage), Stamp(LastUsedAt), Stamp(ExpiresAt), Flag(AutoPauseOnExpired),
    Flag(Schedulable), Stamp(RateLimitedAt), Stamp(RateLimitResetAt), Stamp(OverloadUntil),
    Stamp(TempUnschedulableUntil), Word(TempUnschedulableReason), Stamp(SessionWindowStart),
    Stamp(SessionWindowEnd), Word(SessionWindowStatus)]

  // The text of a JSON column: `null`, an object, or text that does not parse.
  datatype JsonText = NullText | ObjectText(entries: JsonObject) | BadText

  // A scanned value. `None` is SQL NULL (and, for bytes, an empty slice).
  datatype Cell =
    | Int64(i: Option<int>)
    | Text(s: Option<string>)
    | Boolean(b: Option<bool>)
    | Float64(f: Option<real>)
    | Moment(t: Option<Time>)
    | Bytes(j: Option<JsonText>)
    | Unknown(raw: string)

  // The scalar fields of the Account struct, grouped by type; a pointer field (and
  // a map, which may be nil) is an Option.
  datatype Counts = Counts(
    id: int,
    proxyID: Option<int>,
    concurrency: int,
    loadFactor: Option<int>,
    priority: int)

  datatype Texts = Texts(
    name: string,
    notes: Option<string>,
    platform: string,
    accountType: string,
    status: string,
    errorMessage: Option<string>,
    tempUnschedulableReason: Option<string>,
    sessionWindowStatus: Option<string>)

  datatype Times = Times(
    createdAt: Time,
    updatedAt: Time,
    deletedAt: Option<Time>,
    lastUsedAt: Option<Time>,
    expiresAt: Option<Time>,
    rateLimitedAt: Option<Time>,
    rateLimitResetAt: Option<Time>,
    overloadUntil: Option<Time>,
    tempUnschedulableUntil: Option<Time>,
    sessionWindowStart: Option<Time>,
    sessionWindowEnd: Option<Time>)

  datatype Flags = Flags(
    autoPauseOnExpired: bool,
    schedulable: bool)

  datatype Jsons = Jsons(
    credentials: Option<JsonObject>,
    extra: Option<JsonObject>)

  datatype AccountRow = AccountRow(
    counts: Counts,
    texts: Texts,
    times: Times,
    flags: Flags,
    json: Jsons,
    rateMultiplier: real)

  // The zero value of the struct.
  const ZERO := AccountRow(
    Counts(0, None, 0, None, 0),
    Texts("", None, "", "", "", None, None, None),
    Times(0, 0, None, None, None, None, None, None, None, None, None),
    Flags(false, false),
    Jsons(None, None),
    0.0)

  // The destination scanValues allocates for a column: every cell starts as NULL.
  function Destination(c: Column): Cell
  {
    match c
    case Json(_) => Bytes(None)
    case Flag(_) => Boolean(None)
    case RateMultiplier => Float64(None)
    case Whole(_) => Int64(None)
    case Word(_) => Text(None)
    case Stamp(_) => Moment(None)
    case Other(_) => Unknown("")
  }

  // Scanning a driver value into a destination fills it without changing its Go type.
  predicate SameKind(a: Cell, b: Cell)
  {
    match a
    case Int64(_) => b.Int64?
    case Text(_) => b.Text?
    case Boolean(_) => b.Boolean?
    case Float64(_) => b.Float64?
    case Moment(_) => b.Moment?
    case Bytes(_) => b.Bytes?
    case Unknown(_) => b.Unknown?
  }

  predicate HasDestinationKind(c: Column, cell: Cell)
  {
    SameKind(Destination(c), cell)
  }
}
