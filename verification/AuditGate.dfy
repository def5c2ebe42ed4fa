/** The audit gate: the index of exceptions, the scan of vulnerabilities, and the verdict. */
module AuditGate {
  import opened Wrappers
  import opened Relations
  import opened PyText
  import opened AuditExceptions
  import opened AuditData

  type Key = (string, string)

  const REQUIRED: set<string> := {"package", "advisory", "severity", "mitigation", "expires_on"}

  // exc.get(name), where a missing field and an empty one are both falsy.
  function Value(r: Record, name: string): string
  {
    if name in r then r[name] else ""
  }

  function Missing(r: Record): set<string>
  {
    set f | f in REQUIRED && Value(r, f) == ""
  }

  function ExceptionKey(lib: Library, r: Record): Key
  {
    (Strip(Value(r, "package")), lib.lower(Strip(Value(r, "advisory"))))
  }

  function ExceptionSeverity(lib: Library, r: Record): string
  {
    lib.lower(Strip(Value(r, "severity")))
  }

  datatype Indexed = Indexed(severity: string, expiresOn: int)

  datatype GateError =
    | MissingFields(fields: set<string>, package: string)
    | InvalidDate(package: string)
    | MissingValue
    | Duplicate(key: Key)

  // The record can be indexed: all fields present, a valid date, both key parts non-blank.
  predicate WellFormed(lib: Library, r: Record)
  {
    && Missing(r) == {}
    && lib.fromIso(Value(r, "expires_on")).Some?
    && ExceptionKey(lib, r).0 != "" && ExceptionKey(lib, r).1 != ""
  }

  function Expiry(lib: Library, r: Record): int
    requires WellFormed(lib, r)
  {
    lib.fromIso(Value(r, "expires_on")).value
  }

  function IndexEntry(lib: Library, r: Record): Indexed
    requires WellFormed(lib, r)
  {
    Indexed(ExceptionSeverity(lib, r), Expiry(lib, r))
  }

  // The exceptions that make it into the index: well-formed, and first of their key.
  function Index(lib: Library, excs: seq<Record>): map<Key, Indexed>
  {
    if excs == [] then map[]
    else
      var before, r := Index(lib, excs[..|excs| - 1]), excs[|excs| - 1];
      if WellFormed(lib, r) && ExceptionKey(lib, r) !in before then before[ExceptionKey(lib, r) := IndexEntry(lib, r)]
      else before
  }

  // Why a record is refused, given the index built so far.
  function Refusal(lib: Library, index: map<Key, Indexed>, r: Record): Option<GateError>
  {
    if Missing(r) != {} then Some(MissingFields(Missing(r), Value(r, "package")))
    else if lib.fromIso(Value(r, "expires_on")).None? then Some(InvalidDate(Value(r, "package")))
    else if ExceptionKey(lib, r).0 == "" || ExceptionKey(lib, r).1 == "" then Some(MissingValue)
    else if ExceptionKey(lib, r) in index then Some(Duplicate(ExceptionKey(lib, r)))
    else None
  }

  function Refusals(lib: Library, excs: seq<Record>): seq<GateError>
  {
    if excs == [] then []
    else
      var before := Refusals(lib, excs[..|excs| - 1]);
      match Refusal(lib, Index(lib, excs[..|excs| - 1]), excs[|excs| - 1])
      case None => before
      case Some(e) => before + [e]
  }

  /** The first loop of main: index the exceptions, collecting one error per record that is
      not indexed. */
  method IndexExceptions(lib: Library, excs: seq<Record>) returns (index: map<Key, Indexed>, errors: seq<GateError>)
    ensures index == Index(lib, excs)
    ensures errors == Refusals(lib, excs)
  {
    index, errors := map[], [];
    for i := 0 to |excs|
      invariant index == Index(lib, excs[..i])
      invariant errors == Refusals(lib, excs[..i])
    {
      assert excs[..i + 1][..i] == excs[..i];
      var exc := excs[i];
      var missing := Missing(exc);
      if missing != {} {
        errors := errors + [MissingFields(missing, Value(exc, "package"))];
        continue;
      }
      var date := lib.fromIso(Value(exc, "expires_on"));
      if date.None? {
        errors := errors + [InvalidDate(Value(exc, "package"))];
        continue;
      }
      var key := ExceptionKey(lib, exc);
      if key.0 == "" || key.1 == "" {
        errors := errors + [MissingValue];
        continue;
      }
      if key in index {
        errors := errors + [Duplicate(key)];
        continue;
      }
      index := index[key := Indexed(ExceptionSeverity(lib, exc), date.value)];
    }
    assert excs[..|excs|] == excs;
  }

  // normalize_severity: None when a truthy severity is not a string, which raises.
  function Severity(lib: Library, v: Vuln): Option<string>
  {
    if !Truthy(v.severity) then Some(lib.lower(""))
    else if v.severity.Str? then Some(lib.lower(Strip(v.severity.s)))
    else None
  }

  function Advisory(lib: Library, v: Vuln): string
  {
    if v.advisory == Null then "" else lib.lower(Strip(StrOf(lib, v.advisory)))
  }

  function VulnKey(lib: Library, v: Vuln): Key
  {
    (if v.name == Null then "" else Strip(StrOf(lib, v.name)), Advisory(lib, v))
  }

  // The gate looks at named vulnerabilities of high or critical severity only.
  predicate Relevant(lib: Library, v: Vuln)
  {
    (Severity(lib, v) == Some("high") || Severity(lib, v) == Some("critical")) && Truthy(v.name)
  }

  predicate Keyed(lib: Library, v: Vuln)
  {
    Relevant(lib, v) && Advisory(lib, v) != ""
  }

  predicate Mismatched(lib: Library, index: map<Key, Indexed>, v: Vuln)
  {
    var k := VulnKey(lib, v);
    k in index && index[k].severity != "" && Severity(lib, v) != Some(index[k].severity)
  }

  predicate Expired(lib: Library, index: map<Key, Indexed>, today: int, v: Vuln)
  {
    VulnKey(lib, v) in index && index[VulnKey(lib, v)].expiresOn < today
  }

  // The relevant entries with an advisory, and among them the first of each key.
  function KeyedVulns(lib: Library, vulns: seq<Vuln>): seq<Vuln>
  {
    Select((v: Vuln) => Keyed(lib, v), vulns)
  }

  function Firsts(lib: Library, vulns: seq<Vuln>): seq<Vuln>
  {
    FirstBy(KeyedVulns(lib, vulns), (v: Vuln) => VulnKey(lib, v))
  }

  // What the scan reports, list by list.
  datatype Report = Report(unnamed: seq<Vuln>, missing: seq<Vuln>, mismatched: seq<Vuln>, expired: seq<Vuln>)

  function ReportOf(lib: Library, index: map<Key, Indexed>, today: int, vulns: seq<Vuln>): Report
  {
    Report(
      Select((v: Vuln) => Relevant(lib, v) && Advisory(lib, v) == "", vulns),
      Select((v: Vuln) => VulnKey(lib, v) !in index, Firsts(lib, vulns)),
      Select((v: Vuln) => Mismatched(lib, index, v), Firsts(lib, vulns)),
      Select((v: Vuln) => Expired(lib, index, today, v), Firsts(lib, vulns)))
  }

  predicate Scannable(lib: Library, vulns: seq<Vuln>)
  {
    forall v | v in vulns :: Severity(lib, v).Some?
  }

  // Some earlier relevant entry has this key.
  predicate Seen(lib: Library, vulns: seq<Vuln>, k: Key)
  {
    KeyIn(KeyedVulns(lib, vulns), (v: Vuln) => VulnKey(lib, v), k)
  }

  lemma SeenStep(lib: Library, vulns: seq<Vuln>, v: Vuln)
    ensures forall k :: Seen(lib, vulns + [v], k) <==> Seen(lib, vulns, k) || (Keyed(lib, v) && k == VulnKey(lib, v))
  {
    SelectAppend((w: Vuln) => Keyed(lib, w), vulns, v);
    if Keyed(lib, v) {
      forall k ensures Seen(lib, vulns + [v], k) <==> Seen(lib, vulns, k) || k == VulnKey(lib, v) {
        KeyInAppend(KeyedVulns(lib, vulns), (w: Vuln) => VulnKey(lib, w), v, k);
      }
    } else {
      assert KeyedVulns(lib, vulns + [v]) == KeyedVulns(lib, vulns);
    }
  }

  // One turn of the scan loop, in terms of what it adds to the report.
  lemma {:induction false} ReportStep(lib: Library, index: map<Key, Indexed>, today: int, vulns: seq<Vuln>, v: Vuln)
    ensures var seen := Seen(lib, vulns, VulnKey(lib, v));
      var before := ReportOf(lib, index, today, vulns);
      ReportOf(lib, index, today, vulns + [v]) ==
      if Relevant(lib, v) && Advisory(lib, v) == "" then before.(unnamed := before.unnamed + [v])
      else if !Keyed(lib, v) || seen then before
      else if VulnKey(lib, v) !in index then before.(missing := before.missing + [v])
      else before.(
        mismatched := if Mismatched(lib, index, v) then before.mismatched + [v] else before.mismatched,
        expired := if Expired(lib, index, today, v) then before.expired + [v] else before.expired)
  {
    SelectAppend((w: Vuln) => Relevant(lib, w) && Advisory(lib, w) == "", vulns, v);
    SelectAppend((w: Vuln) => Keyed(lib, w), vulns, v);
    var firsts := Firsts(lib, vulns);
    if Keyed(lib, v) {
      FirstByAppend(KeyedVulns(lib, vulns), (w: Vuln) => VulnKey(lib, w), v);
      SelectAppend((w: Vuln) => VulnKey(lib, w) !in index, firsts, v);
      SelectAppend((w: Vuln) => Mismatched(lib, index, w), firsts, v);
      SelectAppend((w: Vuln) => Expired(lib, index, today, w), firsts, v);
    } else {
      assert KeyedVulns(lib, vulns + [v]) == KeyedVulns(lib, vulns);
    }
  }

  // The keys seen so far.
  ghost predicate SeenKeys(lib: Library, vulns: seq<Vuln>, seen: set<Key>)
  {
    forall k :: k in seen <==> Seen(lib, vulns, k)
  }

  // The body of the scan loop for a vulnerability whose severity was read.
  method ScanVuln(
    lib: Library, index: map<Key, Indexed>, today: int, ghost earlier: seq<Vuln>, v: Vuln, report: Report,
    seen: set<Key>)
    returns (report': Report, seen': set<Key>)
    requires report == ReportOf(lib, index, today, earlier) && SeenKeys(lib, earlier, seen)
    ensures report' == ReportOf(lib, index, today, earlier + [v]) && SeenKeys(lib, earlier + [v], seen')
  {
    ReportStep(lib, index, today, earlier, v);
    SeenStep(lib, earlier, v);
    report', seen' := report, seen;
    if !Relevant(lib, v) {
      return;
    }
    if Advisory(lib, v) == "" {
      report' := report.(unnamed := report.unnamed + [v]);
      return;
    }
    var key := VulnKey(lib, v);
    if key in seen {
      return;
    }
    seen' := seen + {key};
    if key !in index {
      report' := report.(missing := report.missing + [v]);
      return;
    }
    if index[key].severity != "" && Some(index[key].severity) != Severity(lib, v) {
      report' := report'.(mismatched := report.mismatched + [v]);
    }
    if index[key].expiresOn < today {
      report' := report'.(expired := report.expired + [v]);
    }
  }

  /** The second loop of main. None is the exception a non-string severity raises. */
  method ScanVulns(lib: Library, index: map<Key, Indexed>, today: int, vulns: seq<Vuln>)
    returns (result: Option<Report>)
    ensures result == if Scannable(lib, vulns) then Some(ReportOf(lib, index, today, vulns)) else None
  {
    var report := Report([], [], [], []);
    var seen: set<Key> := {};
    for i := 0 to |vulns|
      invariant Scannable(lib, vulns[..i])
      invariant report == ReportOf(lib, index, today, vulns[..i])
      invariant SeenKeys(lib, vulns[..i], seen)
    {
      if Severity(lib, vulns[i]).None? {
        return None;
      }
      report, seen := ScanVuln(lib, index, today, vulns[..i], vulns[i], report, seen);
      TakeNext(vulns, i);
    }
    TakeAll(vulns);
    result := Some(report);
  }
}
