/** Reports that show what the gate does: with one exception for a high severity, entries of
    its key that are high or critical, as advisories or as packages, in one order or another. */
module AuditInputs {
  import opened Wrappers
  import opened PyText
  import opened AuditExceptions
  import opened AuditRoundTrip
  import opened AuditData
  import opened AuditScan
  import opened AuditGate
  import opened AuditVerdict
  import opened AuditInvariance
  import opened AuditReports

  const DAY := "2030-01-01"

  const EXCEPTION: seq<KeyValue> := [
    KeyValue("package", "p", Plain), KeyValue("advisory", "g", Double), KeyValue("severity", "high", Plain),
    KeyValue("mitigation", "m", Double), KeyValue("expires_on", DAY, Double)]

  function Lines(): seq<string>
  {
    PrintRecords([EXCEPTION])
  }

  function Entry(severity: string): Json
  {
    Dict([("module_name", Str("p")), ("severity", Str(severity)), ("github_advisory_id", Str("g"))])
  }

  // An advisory, listed under its severity.
  function Listed(severity: string): (string, Json)
  {
    (severity, Entry(severity))
  }

  function Package(severity: string): Json
  {
    Dict([("severity", Str(severity)), ("via", List([Str("g")]))])
  }

  function TwoAdvisories(first: string, second: string): Json
  {
    AuditOf([Listed(first), Listed(second)], [])
  }

  function Finding(severity: string): Vuln
  {
    Vuln(Str("p"), Str(severity), Str("g"), Null)
  }

  function PackageFinding(name: string, severity: string): Vuln
  {
    Vuln(Str(name), Str(severity), Str("g"), Str("g"))
  }

  // The library lowers words that are lower case to themselves, and reads the date.
  ghost predicate Usual(lib: Library)
  {
    && lib.lower("high") == "high" && lib.lower("critical") == "critical" && lib.lower("g") == "g"
    && lib.fromIso(DAY).Some?
  }

  lemma GetOfThree(k1: string, v1: Json, k2: string, v2: Json, k3: string, v3: Json, wanted: string)
    ensures Get([(k1, v1), (k2, v2), (k3, v3)], wanted) ==
            if wanted == k1 then v1 else if wanted == k2 then v2 else if wanted == k3 then v3 else Null
  {
    var e := [(k1, v1), (k2, v2), (k3, v3)];
    assert e[1..] == [(k2, v2), (k3, v3)] && e[1..][1..] == [(k3, v3)] && e[1..][1..][1..] == [];
    assert GetOr(e[1..][1..], wanted, Null) == if wanted == k3 then v3 else Null;
    assert GetOr(e[1..], wanted, Null) == if wanted == k2 then v2 else if wanted == k3 then v3 else Null;
  }

  lemma EntryRead(lib: Library, severity: string)
    ensures AdvisoryVuln(lib, Entry(severity)) == Some(Finding(severity))
  {
    var e := Entry(severity).entries;
    assert |"module_name"| == 11 && |"severity"| == |"advisory"| == |"overview"| == 8 && |"github_advisory_id"| == 18;
    assert |"title"| == 5 && |"url"| == 3 && "severity"[0] == 's' && "advisory"[0] == 'a' && "overview"[0] == 'o';
    forall wanted ensures Get(e, wanted) ==
      if wanted == "module_name" then Str("p") else if wanted == "severity" then Str(severity)
      else if wanted == "github_advisory_id" then Str("g") else Null
    {
      GetOfThree("module_name", Str("p"), "severity", Str(severity), "github_advisory_id", Str("g"), wanted);
    }
    assert FirstTruthy(e, ["github_advisory_id", "url"]) == Str("g");
    assert FirstTruthy(e, ["module_name", "name"]) == Str("p");
    assert ["title", "advisory", "overview", "url"][1..] == ["advisory", "overview", "url"];
    assert ["advisory", "overview", "url"][1..] == ["overview", "url"] && ["overview", "url"][1..] == ["url"];
    assert FirstTruthy(e, ["overview", "url"]) == Null;
    assert FirstTruthy(e, ["advisory", "overview", "url"]) == Null;
  }

  lemma OneMoreAdvisory(lib: Library, entries: seq<(string, Json)>, entry: (string, Json), vulns: seq<Vuln>, v: Vuln)
    requires AdvisoryVulns(lib, entries) == Some(vulns) && AdvisoryVuln(lib, entry.1) == Some(v)
    ensures AdvisoryVulns(lib, entries + [entry]) == Some(vulns + [v])
  {
    assert (entries + [entry])[..|entries|] == entries;
  }

  // What a report yields, from what its two parts yield.
  lemma {:induction false} AuditRead(
    lib: Library, advisories: seq<(string, Json)>, packages: seq<(string, Json)>, a: seq<Vuln>, p: seq<Vuln>,
    all: seq<Vuln>)
    requires (advisories == [] && a == []) || AdvisoryVulns(lib, advisories) == Some(a)
    requires (packages == [] && p == []) || PackagesVulns(packages) == Some(p)
    requires all == a + p
    ensures AllVulns(lib, AuditOf(advisories, packages)) == Some(all)
  {
    AuditParts(advisories, packages);
  }

  lemma AdvisoryRead(lib: Library, severity: string)
    ensures AdvisoryVulns(lib, [Listed(severity)]) == Some([Finding(severity)])
  {
    EntryRead(lib, severity);
    OneMoreAdvisory(lib, [], Listed(severity), [], Finding(severity));
    assert [] + [Listed(severity)] == [Listed(severity)];
    assert [] + [Finding(severity)] == [Finding(severity)];
  }

  lemma TwoAdvisoriesRead(lib: Library, first: string, second: string)
    ensures AllVulns(lib, TwoAdvisories(first, second)) == Some([Finding(first), Finding(second)])
  {
    var entries := [Listed(first), Listed(second)];
    AdvisoryRead(lib, first);
    EntryRead(lib, second);
    OneMoreAdvisory(lib, [entries[0]], entries[1], [Finding(first)], Finding(second));
    assert [entries[0]] + [entries[1]] == entries;
    assert [Finding(first)] + [Finding(second)] == [Finding(first), Finding(second)];
    AuditRead(lib, entries, [], [Finding(first), Finding(second)], [], [Finding(first), Finding(second)]);
  }

  lemma PackageRead(name: string, severity: string)
    ensures PackageVulns(name, Package(severity)) == Some([PackageFinding(name, severity)])
  {
    var item := Str("g");
    ViaOf(Str(severity), [item]);
    CollectOne(ViaTitles, item);
    CollectOne(ViaAdvisories, item);
    OneTitle("g");
    OneYielded(name, Str(severity), item, "g");
    assert |"g"| == 1;
    assert ViaTitles(item) == ViaAdvisories(item) == [item];
    assert Via(Package(severity)) == [item];
  }

  lemma OneYielded(name: string, severity: Json, advisory: Json, title: string)
    requires Truthy(advisory)
    ensures Yielded(name, severity, [advisory], title) == [Vuln(Str(name), severity, advisory, Str(title))]
  {
    assert [advisory][..0] == [] && Yielded(name, severity, [], title) == [];
  }

  lemma OneTitle(title: string)
    ensures JoinTitles([Str(title)]) == Some(title)
  {
    assert [Str(title)][..0] == [] && JoinTitles([]) == Some("");
  }

  lemma OneMorePackage(packages: seq<(string, Json)>, package: (string, Json), vulns: seq<Vuln>, more: seq<Vuln>)
    requires PackagesVulns(packages) == Some(vulns) && PackageVulns(package.0, package.1) == Some(more)
    ensures PackagesVulns(packages + [package]) == Some(vulns + more)
  {
    assert (packages + [package])[..|packages|] == packages;
  }

  lemma PackagesRead(name: string, severity: string)
    ensures PackagesVulns([(name, Package(severity))]) == Some([PackageFinding(name, severity)])
  {
    PackageRead(name, severity);
    OneMorePackage([], (name, Package(severity)), [], [PackageFinding(name, severity)]);
    assert [] + [(name, Package(severity))] == [(name, Package(severity))];
    assert [] + [PackageFinding(name, severity)] == [PackageFinding(name, severity)];
  }

  lemma ViaOf(severity: Json, items: seq<Json>)
    ensures Via(Dict([("severity", severity), ("via", List(items))])) == items
    ensures Get([("severity", severity), ("via", List(items))], "severity") == severity
  {
    var entries := [("severity", severity), ("via", List(items))];
    assert |"severity"| == 8 && |"via"| == 3;
    assert entries[1..] == [("via", List(items))];
    assert GetOr(entries[1..], "via", List([])) == List(items);
  }

  lemma CollectOne(f: Json -> seq<Json>, item: Json)
    ensures Collect(f, [item]) == f(item)
  {
    assert [item][..0] == [];
    assert Collect(f, []) + f(item) == f(item);
  }

  lemma ExceptionRead()
    ensures Records(Lines()) == Some([ToRecord(EXCEPTION)])
    ensures var r := ToRecord(EXCEPTION);
      && Value(r, "package") == "p" && Value(r, "advisory") == "g" && Value(r, "severity") == "high"
      && Value(r, "mitigation") == "m" && Value(r, "expires_on") == DAY
  {
    KeysAreSafe();
    OneRecord(EXCEPTION);
    FieldRead(0);
    FieldRead(1);
    FieldRead(2);
    FieldRead(3);
    FieldRead(4);
  }

  lemma OneRecord(rec: seq<KeyValue>)
    requires rec != [] && SafeFields(rec)
    ensures Records(PrintRecords([rec])) == Some([ToRecord(rec)])
  {
    var recs := [rec];
    PrintThenParse(recs);
    assert recs[..0] == [] && ToRecords(recs[..0]) == [];
    assert ToRecords(recs) == [ToRecord(rec)];
  }

  lemma FieldRead(k: nat)
    requires k < |EXCEPTION|
    ensures Value(ToRecord(EXCEPTION), EXCEPTION[k].key) == EXCEPTION[k].value
  {
    KeysDiffer(k);
    LastFieldWins(EXCEPTION, EXCEPTION[k].key);
  }

  lemma KeysDiffer(k: nat)
    requires k < |EXCEPTION|
    ensures forall j | 0 <= j < |EXCEPTION| && j != k :: EXCEPTION[j].key != EXCEPTION[k].key
  {
    assert |"package"| == 7 && |"advisory"| == |"severity"| == 8 && |"mitigation"| == |"expires_on"| == 10;
    assert "advisory"[0] == 'a' && "severity"[0] == 's' && "mitigation"[0] == 'm' && "expires_on"[0] == 'e';
  }

  lemma KeysAreSafe()
    ensures SafeFields(EXCEPTION)
  {
    NamesAreSafe();
    DatesAreSafe();
    assert !IsSpace('p') && !IsSpace('h');
    forall i | 0 <= i < |EXCEPTION| ensures SafeField(EXCEPTION[i]) {
    }
  }

  lemma NamesAreSafe()
    ensures SafeKey("package") && SafeKey("advisory") && SafeKey("severity")
  {
    assert !IsSpace('p') && !IsSpace('e') && !IsSpace('a') && !IsSpace('y') && !IsSpace('s');
    assert "version"[0] == 'v' && "exceptions"[0] == 'e';
  }

  lemma DatesAreSafe()
    ensures SafeKey("mitigation") && SafeKey("expires_on")
  {
    assert !IsSpace('m') && !IsSpace('n') && !IsSpace('e');
    assert "version"[0] == 'v' && "exceptions"[2] == 'c' && "expires_on"[2] == 'p';
  }

  // What the gate sees of an entry for package p, under any name that is p between blanks.
  lemma FindingFacts(lib: Library, v: Vuln, severity: string)
    requires Usual(lib) && severity in ["high", "critical"]
    requires v.name.Str? && v.name.s != "" && Strip(v.name.s) == "p"
    requires v.severity == Str(severity) && v.advisory == Str("g")
    ensures Keyed(lib, v) && VulnKey(lib, v) == ("p", "g")
    ensures Severity(lib, v) == Some(severity) && Advisory(lib, v) == "g"
  {
    assert !IsSpace('g') && !IsSpace('h') && !IsSpace('c') && !IsSpace('l');
    StripTrimmed(severity);
    StripTrimmed("g");
  }

  lemma Named(lib: Library, severity: string)
    requires Usual(lib) && severity in ["high", "critical"]
    ensures forall v | v in [Finding(severity), PackageFinding("p", severity)] ::
              Keyed(lib, v) && VulnKey(lib, v) == ("p", "g") && Severity(lib, v) == Some(severity)
  {
    assert !IsSpace('p');
    StripTrimmed("p");
    FindingFacts(lib, Finding(severity), severity);
    FindingFacts(lib, PackageFinding("p", severity), severity);
  }

  lemma ExceptionFacts(lib: Library)
    requires Usual(lib)
    ensures var r := ToRecord(EXCEPTION);
      && WellFormed(lib, r) && ExceptionKey(lib, r) == ("p", "g") && ExceptionSeverity(lib, r) == "high"
      && Expiry(lib, r) == lib.fromIso(DAY).value
  {
    assert !IsSpace('p') && !IsSpace('g') && !IsSpace('h');
    ExceptionRead();
    StripTrimmed("p");
    StripTrimmed("g");
    StripTrimmed("high");
    forall f | f in REQUIRED ensures Value(ToRecord(EXCEPTION), f) != "" {
    }
  }

  // One valid exception and two entries of its key, one of which disagrees on the severity.
  ghost predicate Disagree(lib: Library, r: Record, agreeing: Vuln, other: Vuln, today: int)
  {
    && WellFormed(lib, r) && today <= Expiry(lib, r) && ExceptionSeverity(lib, r) != ""
    && Keyed(lib, agreeing) && VulnKey(lib, agreeing) == ExceptionKey(lib, r)
    && Keyed(lib, other) && VulnKey(lib, other) == ExceptionKey(lib, r)
    && Severity(lib, agreeing) == Some(ExceptionSeverity(lib, r)) != Severity(lib, other)
  }

  lemma TwoOrders(lib: Library, r: Record, agreeing: Vuln, other: Vuln, today: int)
    requires Disagree(lib, r, agreeing, other, today)
    ensures Clean(lib, [r], [agreeing, other], today) && !Clean(lib, [r], [other, agreeing], today)
    ensures !Clean(lib, [r], [other], today)
  {
    assert r in [r];
    assert Excused(lib, [r], today, agreeing) && Excused(lib, [r], today, other);
    assert Agrees(lib, [r], agreeing) && !Agrees(lib, [r], other);
    forall i | FirstOfKey(lib, [agreeing, other], i) ensures i == 0 {
      assert [agreeing, other][0] == agreeing;
    }
    assert FirstOfKey(lib, [other, agreeing], 0);
    assert FirstOfKey(lib, [other], 0);
  }

  lemma OrderMatters(lib: Library, r: Record, agreeing: Vuln, other: Vuln, today: int)
    requires Disagree(lib, r, agreeing, other, today)
    ensures !OrderIrrelevant(lib, [r], [agreeing, other], [], today)
  {
    var a := [agreeing, other];
    TwoOrders(lib, r, agreeing, other, today);
    assert a + [] == a && agreeing in a && other in a && r in [r];
    assert Agrees(lib, [r], agreeing) && !Agrees(lib, [r], other);
    assert LaterAgree(lib, [r], a, []);
  }

  lemma Swapped(first: string, second: string)
    ensures Reordered(TwoAdvisories(first, second), TwoAdvisories(second, first))
  {
    AuditParts([Listed(first), Listed(second)], []);
    AuditParts([Listed(second), Listed(first)], []);
    assert multiset([Listed(first), Listed(second)]) == multiset([Listed(second), Listed(first)]);
  }

  /** One order of the advisories passes and the other fails: the exception agrees with the
      high one, and only the first is compared. */
  lemma StatusDependsOnOrder(lib: Library, today: int)
    requires Usual(lib) && today <= lib.fromIso(DAY).value
    ensures Passes(lib, Lines(), TwoAdvisories("high", "critical"), today)
    ensures !Passes(lib, Lines(), TwoAdvisories("critical", "high"), today)
    ensures Reordered(TwoAdvisories("high", "critical"), TwoAdvisories("critical", "high"))
    ensures !ReportOrderIrrelevant(lib, Lines(), TwoAdvisories("high", "critical"), today)
  {
    ExceptionRead();
    ExceptionFacts(lib);
    Named(lib, "high");
    Named(lib, "critical");
    TwoAdvisoriesRead(lib, "high", "critical");
    TwoAdvisoriesRead(lib, "critical", "high");
    assert |"high"| == 4 && |"critical"| == 8;
    TwoOrders(lib, ToRecord(EXCEPTION), Finding("high"), Finding("critical"), today);
    Swapped("high", "critical");
    ReportOrderDependence(lib, Lines(), TwoAdvisories("high", "critical"), today);
  }

  /** A further advisory repairs a failing report: the critical package fails on its own, and
      passes behind a high advisory of its key. */
  lemma AdvisoryHidesPackage(lib: Library, today: int)
    requires Usual(lib) && today <= lib.fromIso(DAY).value
    ensures !Passes(lib, Lines(), AuditOf([], [("p", Package("critical"))]), today)
    ensures Passes(lib, Lines(), AuditOf([Listed("high")], [("p", Package("critical"))]), today)
  {
    ExceptionRead();
    ExceptionFacts(lib);
    Named(lib, "high");
    Named(lib, "critical");
    var critical := PackageFinding("p", "critical");
    HiddenRead(lib);
    assert |"high"| == 4 && |"critical"| == 8;
    TwoOrders(lib, ToRecord(EXCEPTION), Finding("high"), critical, today);
  }

  lemma {:induction false} HiddenRead(lib: Library)
    ensures AllVulns(lib, AuditOf([], [("p", Package("critical"))])) == Some([PackageFinding("p", "critical")])
    ensures AllVulns(lib, AuditOf([Listed("high")], [("p", Package("critical"))])) ==
            Some([Finding("high"), PackageFinding("p", "critical")])
  {
    var critical := PackageFinding("p", "critical");
    AdvisoryRead(lib, "high");
    PackagesRead("p", "critical");
    AuditRead(lib, [], [("p", Package("critical"))], [], [critical], [critical]);
    AuditRead(lib, [Listed("high")], [("p", Package("critical"))], [Finding("high")], [critical],
              [Finding("high"), critical]);
  }

  /** The order of the packages matters when two names differ in a blank at the end. */
  lemma BlankInName(lib: Library, today: int)
    requires Usual(lib) && today <= lib.fromIso(DAY).value
    ensures Passes(lib, Lines(), AuditOf([], [("p", Package("high")), ("p ", Package("critical"))]), today)
    ensures !Passes(lib, Lines(), AuditOf([], [("p ", Package("critical")), ("p", Package("high"))]), today)
  {
    var high, critical := PackageFinding("p", "high"), PackageFinding("p ", "critical");
    ExceptionRead();
    ExceptionFacts(lib);
    Named(lib, "high");
    BlankStripped();
    FindingFacts(lib, critical, "critical");
    TwoPackagesRead(lib, "p", "high", "p ", "critical");
    TwoPackagesRead(lib, "p ", "critical", "p", "high");
    assert |"high"| == 4 && |"critical"| == 8;
    TwoOrders(lib, ToRecord(EXCEPTION), high, critical, today);
  }

  lemma BlankStripped()
    ensures Strip("p ") == "p"
  {
    assert IsSpace(' ') && !IsSpace('p') && "p "[..1] == "p";
    assert RStrip("p ") == RStrip("p") == "p";
  }

  lemma TwoPackagesRead(lib: Library, first: string, severity1: string, second: string, severity2: string)
    ensures AllVulns(lib, AuditOf([], [(first, Package(severity1)), (second, Package(severity2))])) ==
            Some([PackageFinding(first, severity1), PackageFinding(second, severity2)])
  {
    var packages := [(first, Package(severity1)), (second, Package(severity2))];
    var one, two := PackageFinding(first, severity1), PackageFinding(second, severity2);
    PackagesRead(first, severity1);
    PackageRead(second, severity2);
    OneMorePackage([packages[0]], packages[1], [one], [two]);
    assert [packages[0]] + [packages[1]] == packages && [one] + [two] == [one, two];
    AuditRead(lib, [], packages, [], [one, two], [one, two]);
  }

  /** A via element with nothing but a numeric source, which a comment in the program says is
      supported, makes it fail, even for a low severity. */
  lemma NumericSourceInput(lib: Library, lines: seq<string>, name: string, severity: Json, source: real, today: int)
    requires source != 0.0
    ensures var item := Dict([("source", Number(source))]);
      !Passes(lib, lines, AuditOf([], [(name, Dict([("severity", severity), ("via", List([item]))]))]), today)
  {
    var item := Dict([("source", Number(source))]);
    var package := (name, Dict([("severity", severity), ("via", List([item]))]));
    AuditParts([], [package]);
    ViaOf(severity, [item]);
    SourceTitle(source);
    NumericSourceFails(lib, lines, AuditOf([], [package]), package, item, today);
  }

  lemma SourceTitle(source: real)
    ensures FirstTruthy([("source", Number(source))], ["title", "url", "advisory", "source"]) == Number(source)
  {
    var e := [("source", Number(source))];
    assert |"advisory"| == 8 && |"source"| == 6 && |"title"| == 5 && |"url"| == 3;
    GetOnly("source", Number(source), "title");
    GetOnly("source", Number(source), "url");
    GetOnly("source", Number(source), "advisory");
    GetOnly("source", Number(source), "source");
    assert ["title", "url", "advisory", "source"][1..] == ["url", "advisory", "source"];
    assert ["url", "advisory", "source"][1..] == ["advisory", "source"];
    assert ["advisory", "source"][1..] == ["source"];
    assert FirstTruthy(e, ["source"]) == Number(source);
    assert FirstTruthy(e, ["advisory", "source"]) == Number(source);
    assert FirstTruthy(e, ["url", "advisory", "source"]) == Number(source);
  }

  lemma GetOnly(key: string, value: Json, wanted: string)
    ensures Get([(key, value)], wanted) == if key == wanted then value else Null
  {
    var e := [(key, value)];
    assert e[0].0 == key && e[1..] == [];
    assert GetOr(e[1..], wanted, Null) == Null;
    assert GetOr(e, wanted, Null) == if e[0].0 == wanted then e[0].1 else GetOr(e[1..], wanted, Null);
  }
}
