/** Reading a row back: what one column of assignValues does to the struct, and the
    laws that tie every case of the switch to the field its column names. */
module AccountScan {
  import opened Wrappers
  import opened AccountColumns

  type SelectValues = map<string, Cell>

  // The scalar state assignValues updates: the struct fields and the dynamic values.
  datatype Scanned = Scanned(row: AccountRow, dynamic: SelectValues)

  datatype AssignError =
    | CountMismatch(values: nat, columns: nat)
    | UnexpectedType(c: Column)
    | BadJson(c: Column)

  // json.Unmarshal into a map field: `null` sets nil, an object is merged into the map.
  function Unmarshal(current: Option<JsonObject>, text: JsonText): Option<Option<JsonObject>>
  {
    match text
    case NullText => Some(None)
    case ObjectText(m) => Some(Some(if current.Some? then current.value + m else m))
    case BadText => None
  }

  // One case of the switch. A NULL leaves the field alone, except that the ID takes
  // the zero the destination holds.
  function AssignOne(s: Scanned, c: Column, cell: Cell): Result<Scanned, AssignError>
  {
    if c.Other? then Ok(s.(dynamic := s.dynamic[c.name := cell]))
    else if !HasDestinationKind(c, cell) then Err(UnexpectedType(c))
    else
      match c
      case Whole(f) => Ok(s.(row := s.row.(counts := AssignInt(s.row.counts, f, cell.i))))
      case Word(f) => Ok(s.(row := s.row.(texts := AssignText(s.row.texts, f, cell.s))))
      case Stamp(f) => Ok(s.(row := s.row.(times := AssignTime(s.row.times, f, cell.t))))
      case Flag(f) => Ok(s.(row := s.row.(flags := AssignBool(s.row.flags, f, cell.b))))
      case Json(f) =>
        var updated := AssignJson(s.row.json, f, cell.j);
        if updated.None? then Err(BadJson(c)) else Ok(s.(row := s.row.(json := updated.value)))
      case RateMultiplier => Ok(if cell.f.Some? then s.(row := s.row.(rateMultiplier := cell.f.value)) else s)
  }

  function AssignInt(r: Counts, c: IntColumn, v: Option<int>): Counts
  {
    match c
    case ID => r.(id := if v.Some? then v.value else 0)
    case ProxyID => if v.Some? then r.(proxyID := v) else r
    case Concurrency => if v.Some? then r.(concurrency := v.value) else r
    case LoadFactor => if v.Some? then r.(loadFactor := v) else r
    case Priority => if v.Some? then r.(priority := v.value) else r
  }

  function AssignText(r: Texts, c: TextColumn, v: Option<string>): Texts
  {
    match c
    case Name => if v.Some? then r.(name := v.value) else r
    case Notes => if v.Some? then r.(notes := v) else r
    case Platform => if v.Some? then r.(platform := v.value) else r
    case Type => if v.Some? then r.(accountType := v.value) else r
    case Status => if v.Some? then r.(status := v.value) else r
    case ErrorMessage => if v.Some? then r.(errorMessage := v) else r
    case TempUnschedulableReason => if v.Some? then r.(tempUnschedulableReason := v) else r
    case SessionWindowStatus => if v.Some? then r.(sessionWindowStatus := v) else r
  }

  function AssignTime(r: Times, c: TimeColumn, v: Option<Time>): Times
  {
    match c
    case CreatedAt => if v.Some? then r.(createdAt := v.value) else r
    case UpdatedAt => if v.Some? then r.(updatedAt := v.value) else r
    case DeletedAt => if v.Some? then r.(deletedAt := v) else r
    case LastUsedAt => if v.Some? then r.(lastUsedAt := v) else r
    case ExpiresAt => if v.Some? then r.(expiresAt := v) else r
    case RateLimitedAt => if v.Some? then r.(rateLimitedAt := v) else r
    case RateLimitResetAt => if v.Some? then r.(rateLimitResetAt := v) else r
    case OverloadUntil => if v.Some? then r.(overloadUntil := v) else r
    case TempUnschedulableUntil => if v.Some? then r.(tempUnschedulableUntil := v) else r
    case SessionWindowStart => if v.Some? then r.(sessionWindowStart := v) else r
    case SessionWindowEnd => if v.Some? then r.(sessionWindowEnd := v) else r
  }

  function AssignBool(r: Flags, c: BoolColumn, v: Option<bool>): Flags
  {
    match c
    case AutoPauseOnExpired => if v.Some? then r.(autoPauseOnExpired := v.value) else r
    case Schedulable => if v.Some? then r.(schedulable := v.value) else r
  }

  function AssignJson(r: Jsons, c: JsonColumn, v: Option<JsonText>): Option<Jsons>
  {
    if v.None? then Some(r)
    else
      match c
      case Credentials =>
        var m := Unmarshal(r.credentials, v.value);
        if m.None? then None else Some(r.(credentials := m.value))
      case Extra =>
        var m := Unmarshal(r.extra, v.value);
        if m.None? then None else Some(r.(extra := m.value))
  }

  // The field a column names, as the cell that column would hold.
  function Field(r: AccountRow, c: Column): Cell
    requires !c.Other?
  {
    match c
    case Whole(f) => Int64(IntField(r.counts, f))
    case Word(f) => Text(TextField(r.texts, f))
    case Stamp(f) => Moment(TimeField(r.times, f))
    case Flag(f) => Boolean(BoolField(r.flags, f))
    case Json(f) => Bytes(Encode(JsonField(r.json, f)))
    case RateMultiplier => Float64(Some(r.rateMultiplier))
  }

  function IntField(r: Counts, c: IntColumn): Option<int>
  {
    match c
    case ID => Some(r.id)
    case ProxyID => r.proxyID
    case Concurrency => Some(r.concurrency)
    case LoadFactor => r.loadFactor
    case Priority => Some(r.priority)
  }

  function TextField(r: Texts, c: TextColumn): Option<string>
  {
    match c
    case Name => Some(r.name)
    case Notes => r.notes
    case Platform => Some(r.platform)
    case Type => Some(r.accountType)
    case Status => Some(r.status)
    case ErrorMessage => r.errorMessage
    case TempUnschedulableReason => r.tempUnschedulableReason
    case SessionWindowStatus => r.sessionWindowStatus
  }

  function TimeField(r: Times, c: TimeColumn): Option<Time>
  {
    match c
    case CreatedAt => Some(r.createdAt)
    case UpdatedAt => Some(r.updatedAt)
    case DeletedAt => r.deletedAt
    case LastUsedAt => r.lastUsedAt
    case ExpiresAt => r.expiresAt
    case RateLimitedAt => r.rateLimitedAt
    case RateLimitResetAt => r.rateLimitResetAt
    case OverloadUntil => r.overloadUntil
    case TempUnschedulableUntil => r.tempUnschedulableUntil
    case SessionWindowStart => r.sessionWindowStart
    case SessionWindowEnd => r.sessionWindowEnd
  }

  function BoolField(r: Flags, c: BoolColumn): Option<bool>
  {
    match c
    case AutoPauseOnExpired => Some(r.autoPauseOnExpired)
    case Schedulable => Some(r.schedulable)
  }

  function JsonField(r: Jsons, c: JsonColumn): Option<JsonObject>
  {
    match c
    case Credentials => r.credentials
    case Extra => r.extra
  }

  // json.Marshal of a map field; a nil map encodes as `null`.
  function Encode(m: Option<JsonObject>): Option<JsonText>
  {
    Some(if m.Some? then ObjectText(m.value) else NullText)
  }

  // What reading `cell` makes of a field that held `before`.
  function Updated(c: Column, before: Cell, cell: Cell): Cell
    requires HasDestinationKind(c, before) && HasDestinationKind(c, cell)
  {
    if c == Whole(ID) && cell.i.None? then Int64(Some(0))
    else if cell == Destination(c) then before
    else if c.Json? && before.j.Some? && before.j.value.ObjectText? && cell.j.value.ObjectText? then
      Bytes(Some(ObjectText(before.j.value.entries + cell.j.value.entries)))
    else cell
  }

  // A cell assignValues can read into column `c`.
  predicate Readable(c: Column, cell: Cell)
  {
    c.Other? || (HasDestinationKind(c, cell) && !(c.Json? && cell.j == Some(BadText)))
  }

  // assignValues rejects a column exactly when its cell is not readable.
  lemma AssignOneFailsOnlyOnUnreadable(s: Scanned, c: Column, cell: Cell)
    ensures AssignOne(s, c, cell).Ok? <==> Readable(c, cell)
    ensures AssignOne(s, c, cell).Err? ==>
              AssignOne(s, c, cell).error == if HasDestinationKind(c, cell) then BadJson(c) else UnexpectedType(c)
  {
  }

  /** Each case of the switch updates the field its own column names, as `Updated`
      says, and no other field. */
  lemma AssignUpdatesOneField(s: Scanned, c: Column, cell: Cell, other: Column)
    requires Readable(c, cell) && !c.Other? && !other.Other?
    ensures HasDestinationKind(c, Field(s.row, c))
    ensures AssignOne(s, c, cell).Ok? && AssignOne(s, c, cell).value.dynamic == s.dynamic
    ensures Field(AssignOne(s, c, cell).value.row, other) ==
            if other == c then Updated(c, Field(s.row, c), cell) else Field(s.row, other)
  {
    match c
    case Whole(f) => if other.Whole? { IntLaw(s.row.counts, f, cell.i, other.int64); }
    case Word(f) => if other.Word? { TextLaw(s.row.texts, f, cell.s, other.text); }
    case Stamp(f) => if other.Stamp? { TimeLaw(s.row.times, f, cell.t, other.time); }
    case Flag(_) =>
    case Json(_) =>
    case RateMultiplier =>
  }

  lemma IntLaw(r: Counts, c: IntColumn, v: Option<int>, other: IntColumn)
    ensures IntField(AssignInt(r, c, v), other) ==
            if other != c then IntField(r, other)
            else if v.Some? then v
            else if c == ID then Some(0)
            else IntField(r, c)
  {
  }

  lemma TextLaw(r: Texts, c: TextColumn, v: Option<string>, other: TextColumn)
    ensures TextField(AssignText(r, c, v), other) ==
            if other == c && v.Some? then v else TextField(r, other)
  {
  }

  lemma TimeLaw(r: Times, c: TimeColumn, v: Option<Time>, other: TimeColumn)
    ensures TimeField(AssignTime(r, c, v), other) ==
            if other == c && v.Some? then v else TimeField(r, other)
  {
  }

  ghost predicate SameFields(r: AccountRow, q: AccountRow)
  {
    forall c: Column | !c.Other? :: Field(r, c) == Field(q, c)
  }

  lemma SameCounts(r: Counts, q: Counts)
    requires forall c :: IntField(r, c) == IntField(q, c)
    ensures r == q
  {
    assert IntField(r, ID) == IntField(q, ID);
    assert IntField(r, ProxyID) == IntField(q, ProxyID);
    assert IntField(r, Concurrency) == IntField(q, Concurrency);
    assert IntField(r, LoadFactor) == IntField(q, LoadFactor);
    assert IntField(r, Priority) == IntField(q, Priority);
  }

  lemma SameTexts(r: Texts, q: Texts)
    requires forall c :: TextField(r, c) == TextField(q, c)
    ensures r == q
  {
    assert TextField(r, Name) == TextField(q, Name);
    assert TextField(r, Notes) == TextField(q, Notes);
    assert TextField(r, Platform) == TextField(q, Platform);
    assert TextField(r, Type) == TextField(q, Type);
    assert TextField(r, Status) == TextField(q, Status);
    assert TextField(r, ErrorMessage) == TextField(q, ErrorMessage);
    assert TextField(r, TempUnschedulableReason) == TextField(q, TempUnschedulableReason);
    assert TextField(r, SessionWindowStatus) == TextField(q, SessionWindowStatus);
  }

  lemma SameTimes(r: Times, q: Times)
    requires forall c :: TimeField(r, c) == TimeField(q, c)
    ensures r == q
  {
    assert TimeField(r, CreatedAt) == TimeField(q, CreatedAt);
    assert TimeField(r, UpdatedAt) == TimeField(q, UpdatedAt);
    assert TimeField(r, DeletedAt) == TimeField(q, DeletedAt);
    assert TimeField(r, LastUsedAt) == TimeField(q, LastUsedAt);
    assert TimeField(r, ExpiresAt) == TimeField(q, ExpiresAt);
    assert TimeField(r, RateLimitedAt) == TimeField(q, RateLimitedAt);
    assert TimeField(r, RateLimitResetAt) == TimeField(q, RateLimitResetAt);
    assert TimeField(r, OverloadUntil) == TimeField(q, OverloadUntil);
    assert TimeField(r, TempUnschedulableUntil) == TimeField(q, TempUnschedulableUntil);
    assert TimeField(r, SessionWindowStart) == TimeField(q, SessionWindowStart);
    assert TimeField(r, SessionWindowEnd) == TimeField(q, SessionWindowEnd);
  }

  lemma SameFlags(r: Flags, q: Flags)
    requires forall c :: BoolField(r, c) == BoolField(q, c)
    ensures r == q
  {
    assert BoolField(r, AutoPauseOnExpired) == BoolField(q, AutoPauseOnExpired);
    assert BoolField(r, Schedulable) == BoolField(q, Schedulable);
  }

  lemma SameJsons(r: Jsons, q: Jsons)
    requires forall c :: JsonField(r, c) == JsonField(q, c)
    ensures r == q
  {
    assert JsonField(r, Credentials) == JsonField(q, Credentials);
    assert JsonField(r, Extra) == JsonField(q, Extra);
  }

  // The fields determine the struct.
  lemma FieldsDetermineRow(r: AccountRow, q: AccountRow)
    requires SameFields(r, q)
    ensures r == q
  {
    forall c ensures IntField(r.counts, c) == IntField(q.counts, c) {
      assert Field(r, Whole(c)) == Field(q, Whole(c));
    }
    SameCounts(r.counts, q.counts);
    forall c ensures TextField(r.texts, c) == TextField(q.texts, c) {
      assert Field(r, Word(c)) == Field(q, Word(c));
    }
    SameTexts(r.texts, q.texts);
    forall c ensures TimeField(r.times, c) == TimeField(q.times, c) {
      assert Field(r, Stamp(c)) == Field(q, Stamp(c));
    }
    SameTimes(r.times, q.times);
    forall c ensures BoolField(r.flags, c) == BoolField(q.flags, c) {
      assert Field(r, Flag(c)) == Field(q, Flag(c));
    }
    SameFlags(r.flags, q.flags);
    forall c ensures JsonField(r.json, c) == JsonField(q.json, c) {
      assert Field(r, Json(c)) == Field(q, Json(c));
    }
    SameJsons(r.json, q.json);
    assert Field(r, RateMultiplier) == Field(q, RateMultiplier);
  }

  // The state after the first n columns, and the error that stopped the loop, if any.
  function AssignFirst(s: Scanned, columns: seq<Column>, values: seq<Cell>, n: nat): (Scanned, Option<AssignError>)
    requires n <= |columns| <= |values|
  {
    if n == 0 then (s, None)
    else
      var (before, err) := AssignFirst(s, columns, values, n - 1);
      if err.Some? then (before, err)
      else
        match AssignOne(before, columns[n - 1], values[n - 1])
        case Ok(after) => (after, None)
        case Err(e) => (before, Some(e))
  }

  // An error ends the loop: later columns change nothing.
  lemma {:induction false} AssignStops(s: Scanned, columns: seq<Column>, values: seq<Cell>, n: nat, m: nat)
    requires n < m <= |columns| <= |values|
    requires AssignFirst(s, columns, values, n + 1).1.Some?
    ensures AssignFirst(s, columns, values, m) == AssignFirst(s, columns, values, n + 1)
  {
    if n + 1 == m {
    } else {
      AssignStops(s, columns, values, n, m - 1);
    }
  }

  // The cells scanValues allocated, after the driver filled them.
  ghost predicate FilledDestinations(columns: seq<Column>, values: seq<Cell>)
  {
    && |columns| <= |values|
    && forall i | 0 <= i < |columns| :: HasDestinationKind(columns[i], values[i])
  }

  /** Cells that came from scanValues never raise a type mismatch, whatever the column
      list: reading fails exactly when some JSON column holds text that does not parse. */
  lemma {:induction false} ScannedCellsFailOnlyOnBadJson(s: Scanned, columns: seq<Column>, values: seq<Cell>, n: nat)
    requires FilledDestinations(columns, values) && n <= |columns|
    ensures AssignFirst(s, columns, values, n).1.Some? <==>
            exists k | 0 <= k < n :: columns[k].Json? && values[k].j == Some(BadText)
    ensures var err := AssignFirst(s, columns, values, n).1; err.Some? ==> err.value.BadJson?
  {
    if n == 0 {
    } else {
      ScannedCellsFailOnlyOnBadJson(s, columns, values, n - 1);
      var before := AssignFirst(s, columns, values, n - 1).0;
      AssignOneFailsOnlyOnUnreadable(before, columns[n - 1], values[n - 1]);
    }
  }

  // Position k holds the value column c ends with: nothing after it counts.
  ghost predicate LastValueAt(c: Column, columns: seq<Column>, values: seq<Cell>, n: nat, k: int)
    requires n <= |columns| <= |values|
  {
    && 0 <= k < n && columns[k] == c && Effective(c, values[k])
    && forall j | k < j < n && columns[j] == c :: !Effective(c, values[j])
  }

  // NULL has no effect, except for the ID, which it resets.
  predicate Effective(c: Column, cell: Cell)
  {
    c == Whole(ID) || cell != Destination(c)
  }

  /** Repeated and unknown columns included, a scalar field ends with its last
      non-NULL value, or with what it held before when there is none. */
  lemma {:induction false} LastValueWins(s: Scanned, columns: seq<Column>, values: seq<Cell>, n: nat, c: Column)
    requires FilledDestinations(columns, values) && n <= |columns|
    requires AssignFirst(s, columns, values, n).1.None?
    requires !c.Other? && !c.Json?
    ensures forall k | LastValueAt(c, columns, values, n, k) ::
              Field(AssignFirst(s, columns, values, n).0.row, c) == Updated(c, Destination(c), values[k])
    ensures (forall k | 0 <= k < n && columns[k] == c :: !Effective(c, values[k])) ==>
              Field(AssignFirst(s, columns, values, n).0.row, c) == Field(s.row, c)
  {
    if n == 0 {
    } else {
      LastValueWins(s, columns, values, n - 1, c);
      var before := AssignFirst(s, columns, values, n - 1).0;
      var d, cell := columns[n - 1], values[n - 1];
      AssignOneFailsOnlyOnUnreadable(before, d, cell);
      if !d.Other? {
        AssignUpdatesOneField(before, d, cell, c);
      }
      forall k | LastValueAt(c, columns, values, n, k)
        ensures Field(AssignFirst(s, columns, values, n).0.row, c) == Updated(c, Destination(c), values[k])
      {
        if k < n - 1 {
          assert LastValueAt(c, columns, values, n - 1, k);
        }
      }
    }
  }

  // Position k is the last one of a column that no case of the switch matches.
  ghost predicate LastOther(name: string, columns: seq<Column>, n: nat, k: int)
    requires n <= |columns|
  {
    0 <= k < n && columns[k] == Other(name) && forall j | k < j < n :: columns[j] != Other(name)
  }

  /** The values of unknown columns are kept under their names: the last one of each name, or
      what was there before. */
  lemma {:induction false} UnknownColumnsKept(s: Scanned, columns: seq<Column>, values: seq<Cell>, n: nat, name: string)
    requires n <= |columns| <= |values| && AssignFirst(s, columns, values, n).1.None?
    ensures var dynamic := AssignFirst(s, columns, values, n).0.dynamic;
      && (forall k | LastOther(name, columns, n, k) :: name in dynamic && dynamic[name] == values[k])
      && (Other(name) !in columns[..n] ==>
            (name in dynamic <==> name in s.dynamic) && (name in dynamic ==> dynamic[name] == s.dynamic[name]))
  {
    if n == 0 {
    } else {
      UnknownColumnsKept(s, columns, values, n - 1, name);
      assert columns[..n] == columns[..n - 1] + [columns[n - 1]];
      forall k | LastOther(name, columns, n, k) && k < n - 1 ensures LastOther(name, columns, n - 1, k) {
      }
    }
  }

  // The JSON value at position k clears the map, or sets this key.
  predicate ClearsMap(c: Column, columns: seq<Column>, values: seq<Cell>, k: int)
    requires |columns| <= |values| && 0 <= k < |columns|
  {
    columns[k] == c && values[k] == Bytes(Some(NullText))
  }

  predicate SetsKey(c: Column, columns: seq<Column>, values: seq<Cell>, k: int, key: string)
    requires |columns| <= |values| && 0 <= k < |columns|
  {
    && columns[k] == c && values[k].Bytes? && values[k].j.Some? && values[k].j.value.ObjectText?
    && key in values[k].j.value.entries
  }

  // The last value that matters for a key of a JSON column is the one at position k.
  ghost predicate LastKeyAt(c: Column, columns: seq<Column>, values: seq<Cell>, n: nat, k: int, key: string)
    requires n <= |columns| <= |values|
  {
    && 0 <= k < n && SetsKey(c, columns, values, k, key)
    && forall j | k < j < n :: !SetsKey(c, columns, values, j, key) && !ClearsMap(c, columns, values, j)
  }

  lemma JsonStep(s: Scanned, c: Column, cell: Cell, f: JsonColumn, key: string)
    requires AssignOne(s, c, cell).Ok?
    ensures var before, after := JsonField(s.row.json, f), JsonField(AssignOne(s, c, cell).value.row.json, f);
      if c != Json(f) || cell == Bytes(None) then after == before
      else if cell == Bytes(Some(NullText)) then after == None
      else
        && cell.Bytes? && cell.j.Some? && cell.j.value.ObjectText? && after.Some?
        && (key in after.value <==> key in cell.j.value.entries || (before.Some? && key in before.value))
        && (key in after.value ==>
              after.value[key] ==
              if key in cell.j.value.entries then cell.j.value.entries[key] else before.value[key])
  {
  }

  /** Objects read into one JSON column are merged, and later ones win; only a JSON null
      drops what was read before. */
  lemma {:induction false} JsonMerged(
    s: Scanned, columns: seq<Column>, values: seq<Cell>, n: nat, f: JsonColumn, key: string)
    requires n <= |columns| <= |values| && AssignFirst(s, columns, values, n).1.None?
    ensures forall k | LastKeyAt(Json(f), columns, values, n, k, key) ::
              var read := JsonField(AssignFirst(s, columns, values, n).0.row.json, f);
              read.Some? && key in read.value && read.value[key] == values[k].j.value.entries[key]
  {
    if n == 0 {
    } else {
      JsonMerged(s, columns, values, n - 1, f, key);
      JsonStep(AssignFirst(s, columns, values, n - 1).0, columns[n - 1], values[n - 1], f, key);
      forall k | LastKeyAt(Json(f), columns, values, n, k, key)
        ensures var read := JsonField(AssignFirst(s, columns, values, n).0.row.json, f);
          read.Some? && key in read.value && read.value[key] == values[k].j.value.entries[key]
      {
        if k < n - 1 {
          assert LastKeyAt(Json(f), columns, values, n - 1, k, key);
          assert !SetsKey(Json(f), columns, values, n - 1, key) && !ClearsMap(Json(f), columns, values, n - 1);
        }
      }
    }
  }

  /** What was there before stays until a JSON null, and nothing else appears. */
  lemma {:induction false} JsonKept(
    s: Scanned, columns: seq<Column>, values: seq<Cell>, n: nat, f: JsonColumn, key: string)
    requires n <= |columns| <= |values| && AssignFirst(s, columns, values, n).1.None?
    requires forall k | 0 <= k < n :: !SetsKey(Json(f), columns, values, k, key)
    ensures var read, before := JsonField(AssignFirst(s, columns, values, n).0.row.json, f), JsonField(s.row.json, f);
      var kept := forall k | 0 <= k < n :: !ClearsMap(Json(f), columns, values, k);
      && (read.Some? && key in read.value <==> kept && before.Some? && key in before.value)
      && (read.Some? && key in read.value && before.Some? && key in before.value ==>
            read.value[key] == before.value[key])
  {
    if n == 0 {
    } else {
      JsonKept(s, columns, values, n - 1, f, key);
      assert !SetsKey(Json(f), columns, values, n - 1, key);
      JsonStep(AssignFirst(s, columns, values, n - 1).0, columns[n - 1], values[n - 1], f, key);
      var kept := forall k | 0 <= k < n - 1 :: !ClearsMap(Json(f), columns, values, k);
      assert (forall k | 0 <= k < n :: !ClearsMap(Json(f), columns, values, k)) <==>
             kept && !ClearsMap(Json(f), columns, values, n - 1);
    }
  }

  // A stored row: the columns it has a value for; the others read as NULL.
  type Record = map<Column, Cell>

  function Read(record: Record, c: Column): Cell
  {
    if c in record then record[c] else Destination(c)
  }

  ghost predicate ValidRecord(record: Record)
  {
    forall c | c in record :: !c.Other? && Readable(c, record[c])
  }

  // What a fresh struct's field holds once column c of `record` has been read.
  function Loaded(record: Record, c: Column): Cell
    requires !c.Other?
  {
    if Read(record, c) == Destination(c) then Field(ZERO, c) else Read(record, c)
  }

  /** Reading any column list of a stored row into a fresh struct: each listed column
      holds the stored value, each other one its zero, and repeats make no difference. */
  lemma {:induction false} ReadingARecord(record: Record, columns: seq<Column>, values: seq<Cell>, n: nat, c: Column)
    requires ValidRecord(record) && n <= |columns| <= |values| && !c.Other?
    requires forall k | 0 <= k < |columns| :: values[k] == Read(record, columns[k])
    ensures AssignFirst(Scanned(ZERO, map[]), columns, values, n).1.None?
    ensures Field(AssignFirst(Scanned(ZERO, map[]), columns, values, n).0.row, c) ==
            if c in columns[..n] then Loaded(record, c) else Field(ZERO, c)
  {
    if n == 0 {
    } else {
      ReadingARecord(record, columns, values, n - 1, c);
      var before := AssignFirst(Scanned(ZERO, map[]), columns, values, n - 1).0;
      var d, cell := columns[n - 1], values[n - 1];
      assert columns[..n] == columns[..n - 1] + [d];
      AssignOneFailsOnlyOnUnreadable(before, d, cell);
      if !d.Other? {
        AssignUpdatesOneField(before, d, cell, c);
        if d == c {
          ReadTwice(record, c, Field(before.row, c));
        }
      }
    }
  }

  lemma ReadTwice(record: Record, c: Column, before: Cell)
    requires ValidRecord(record) && !c.Other?
    requires before == Loaded(record, c) || before == Field(ZERO, c)
    ensures HasDestinationKind(c, before) && Updated(c, before, Read(record, c)) == Loaded(record, c)
  {
    var cell := Read(record, c);
    if c.Json? && cell.j.Some? && cell.j.value.ObjectText? {
      assert cell.j.value.entries + cell.j.value.entries == cell.j.value.entries;
    }
  }
}
