/** The verdict in the terms of the two files: the fields of the exception records and what
    the entries of the report say. */
module AuditAcceptance {
  import opened Wrappers
  import opened PyText
  import opened AuditExceptions
  import opened AuditData
  import opened AuditScan
  import opened AuditGate
  import opened AuditVerdict
  import opened AuditReports
  import opened AuditFindings

  predicate HasField(r: Record, field: string)
  {
    field in r && r[field] != ""
  }

  predicate AllFields(r: Record)
  {
    && HasField(r, "package") && HasField(r, "advisory") && HasField(r, "severity") && HasField(r, "mitigation")
    && HasField(r, "expires_on")
  }

  // A record the gate can use.
  predicate Usable(lib: Library, r: Record)
  {
    && AllFields(r) && lib.fromIso(r["expires_on"]).Some?
    && Strip(r["package"]) != "" && lib.lower(Strip(r["advisory"])) != ""
  }

  // Two records for the same package, as written, and the same advisory, in any case.
  predicate SameSubject(lib: Library, r: Record, q: Record)
  {
    && AllFields(r) && AllFields(q)
    && Strip(r["package"]) == Strip(q["package"])
    && lib.lower(Strip(r["advisory"])) == lib.lower(Strip(q["advisory"]))
  }

  ghost predicate UsableRecords(lib: Library, excs: seq<Record>)
  {
    && (forall r | r in excs :: Usable(lib, r))
    && forall i, j | 0 <= i < j < |excs| :: !SameSubject(lib, excs[i], excs[j])
  }

  lemma UsableIsWellFormed(lib: Library, r: Record)
    ensures Usable(lib, r) <==> WellFormed(lib, r)
    ensures Usable(lib, r) ==> forall q | Usable(lib, q) ::
              SameSubject(lib, r, q) <==> ExceptionKey(lib, r) == ExceptionKey(lib, q)
  {
    assert "package" in REQUIRED && "advisory" in REQUIRED && "severity" in REQUIRED;
    assert "mitigation" in REQUIRED && "expires_on" in REQUIRED;
    assert forall f | f in REQUIRED :: f in Missing(r) <==> !HasField(r, f);
    assert AllFields(r) <==> forall f | f in REQUIRED :: HasField(r, f);
  }

  /** The records of the file are accepted exactly when each has all its fields and a date,
      and no two name the same package and advisory. */
  lemma UsableIsClean(lib: Library, excs: seq<Record>)
    ensures UsableRecords(lib, excs) <==> CleanExceptions(lib, excs)
  {
    forall r | r in excs
      ensures Usable(lib, r) <==> WellFormed(lib, r)
      ensures Usable(lib, r) ==> forall q | Usable(lib, q) ::
                SameSubject(lib, r, q) <==> ExceptionKey(lib, r) == ExceptionKey(lib, q)
    {
      UsableIsWellFormed(lib, r);
    }
    var key := (r: Record) => ExceptionKey(lib, r);
    if UsableRecords(lib, excs) {
      forall i, j | 0 <= i < j < |excs| ensures key(excs[i]) != key(excs[j]) {
        assert excs[i] in excs && excs[j] in excs;
      }
    }
    if CleanExceptions(lib, excs) {
      forall i, j | 0 <= i < j < |excs| ensures !SameSubject(lib, excs[i], excs[j]) {
        assert excs[i] in excs && excs[j] in excs;
        assert key(excs[i]) != key(excs[j]);
      }
    }
  }

  // str of a value, where None is no text.
  function Text(lib: Library, j: Json): string
  {
    match j
    case Null => ""
    case Str(s) => s
    case _ => lib.text(j)
  }

  // A severity that reads as this word; a missing one reads as the empty word.
  predicate Rated(lib: Library, severity: Json, word: string)
  {
    if Truthy(severity) then severity.Str? && lib.lower(Strip(severity.s)) == word else lib.lower("") == word
  }

  // A named vulnerability of high or critical severity.
  predicate Serious(lib: Library, v: Vuln)
  {
    Truthy(v.name) && (Rated(lib, v.severity, "high") || Rated(lib, v.severity, "critical"))
  }

  // The record is an exception for this vulnerability: the same package, as written, and the
  // same advisory, in any case.
  predicate Excepts(lib: Library, r: Record, v: Vuln)
  {
    && AllFields(r) && Strip(r["package"]) == Strip(Text(lib, v.name))
    && lib.lower(Strip(r["advisory"])) == lib.lower(Strip(Text(lib, v.advisory)))
  }

  predicate ValidOn(lib: Library, r: Record, today: int)
  {
    HasField(r, "expires_on") && lib.fromIso(r["expires_on"]).Some? && today <= lib.fromIso(r["expires_on"]).value
  }

  // What the gate's own notions come to for a vulnerability.
  lemma {:induction false} SeriousIsRelevant(lib: Library, v: Vuln)
    ensures Serious(lib, v) <==> Relevant(lib, v)
    ensures forall word :: Severity(lib, v) == Some(word) <==> Rated(lib, v.severity, word)
    ensures v.advisory != Null ==> Advisory(lib, v) == lib.lower(Strip(Text(lib, v.advisory)))
    ensures forall r | Usable(lib, r) && Advisory(lib, v) != "" ::
              Excepts(lib, r, v) <==> ExceptionKey(lib, r) == VulnKey(lib, v)
  {
    assert Strip("") == "";
    if Advisory(lib, v) != "" {
      forall r | Usable(lib, r) ensures Excepts(lib, r, v) <==> ExceptionKey(lib, r) == VulnKey(lib, v) {
      }
    }
  }

  /** What passing takes: every record is usable, and whatever serious vulnerability an entry
      of the report states, it is identified and some record excepts it and is still valid. */
  lemma PassingTakes(lib: Library, lines: seq<string>, data: Json, today: int, v: Vuln)
    requires Passes(lib, lines, data, today)
    ensures data.Dict? && UsableRecords(lib, Records(lines).value)
    ensures Reports(lib, data, v) && Serious(lib, v) ==>
              && v.advisory != Null && lib.lower(Strip(Text(lib, v.advisory))) != ""
              && exists r | r in Records(lines).value :: Excepts(lib, r, v) && ValidOn(lib, r, today)
  {
    var excs := Records(lines).value;
    UsableIsClean(lib, excs);
    FindingsAreYielded(lib, data, v);
    SeriousIsRelevant(lib, v);
    if Reports(lib, data, v) && Serious(lib, v) {
      assert Excused(lib, excs, today, v);
      var r :| r in excs && WellFormed(lib, r) && ExceptionKey(lib, r) == VulnKey(lib, v) && today <= Expiry(lib, r);
      assert Excepts(lib, r, v) && ValidOn(lib, r, today);
    }
  }

  // The vulnerability is excepted by a valid record that states its severity.
  ghost predicate Accepted(lib: Library, excs: seq<Record>, today: int, v: Vuln)
  {
    && v.advisory != Null && lib.lower(Strip(Text(lib, v.advisory))) != ""
    && exists r | r in excs :: Excepts(lib, r, v) && ValidOn(lib, r, today)
                               && Rated(lib, v.severity, lib.lower(Strip(r["severity"])))
  }

  lemma OnlyRecord(lib: Library, excs: seq<Record>, r: Record, q: Record)
    requires CleanExceptions(lib, excs) && r in excs && q in excs && ExceptionKey(lib, r) == ExceptionKey(lib, q)
    ensures r == q
  {
    var i :| 0 <= i < |excs| && excs[i] == r;
    var j :| 0 <= j < |excs| && excs[j] == q;
    var key := (e: Record) => ExceptionKey(lib, e);
    assert key(excs[i]) == key(excs[j]);
  }

  lemma KeyOfAccepted(lib: Library, r: Record, v: Vuln)
    requires Usable(lib, r) && Excepts(lib, r, v) && v.advisory != Null
    ensures WellFormed(lib, r) && Advisory(lib, v) != "" && ExceptionKey(lib, r) == VulnKey(lib, v)
  {
    UsableIsWellFormed(lib, r);
    SeriousIsRelevant(lib, v);
  }

  lemma {:induction false} AcceptedIsExcused(lib: Library, excs: seq<Record>, today: int, v: Vuln)
    requires UsableRecords(lib, excs) && Accepted(lib, excs, today, v)
    ensures Advisory(lib, v) != "" && Excused(lib, excs, today, v) && Agrees(lib, excs, v)
  {
    var r :|
      && r in excs && Excepts(lib, r, v) && ValidOn(lib, r, today)
      && Rated(lib, v.severity, lib.lower(Strip(r["severity"])));
    KeyOfAccepted(lib, r, v);
    SeriousIsRelevant(lib, v);
    UsableIsClean(lib, excs);
    forall q | q in excs && ExceptionKey(lib, q) == VulnKey(lib, v) ensures q == r {
      OnlyRecord(lib, excs, r, q);
    }
  }

  /** What is enough to pass: neither file makes the program raise, every record is usable,
      severities are texts, and every serious vulnerability is accepted. */
  lemma PassingGranted(lib: Library, lines: seq<string>, data: Json, today: int)
    requires Records(lines).Some? && AllVulns(lib, data).Some?
    requires UsableRecords(lib, Records(lines).value)
    requires forall v | v in AllVulns(lib, data).value && Reports(lib, data, v) ::
               && (Truthy(v.severity) ==> v.severity.Str?)
               && (Serious(lib, v) ==> Accepted(lib, Records(lines).value, today, v))
    ensures Passes(lib, lines, data, today)
  {
    var excs, vulns := Records(lines).value, AllVulns(lib, data).value;
    UsableIsClean(lib, excs);
    forall v | v in vulns
      ensures Severity(lib, v).Some?
      ensures Relevant(lib, v) ==> Advisory(lib, v) != "" && Excused(lib, excs, today, v) && Agrees(lib, excs, v)
    {
      FindingsAreYielded(lib, data, v);
      SeriousIsRelevant(lib, v);
      if Relevant(lib, v) {
        AcceptedIsExcused(lib, excs, today, v);
      }
    }
    forall i | FirstOfKey(lib, vulns, i) ensures Agrees(lib, excs, vulns[i]) {
      assert vulns[i] in vulns;
    }
  }

  /** A record without one of the required fields, or with an empty one, makes the program fail. */
  lemma MissingFieldFails(lib: Library, lines: seq<string>, data: Json, today: int, r: Record, field: string)
    requires Records(lines).Some? && r in Records(lines).value
    requires field in ["package", "advisory", "severity", "mitigation", "expires_on"] && !HasField(r, field)
    ensures !Passes(lib, lines, data, today)
  {
    assert !Usable(lib, r);
    if Passes(lib, lines, data, today) {
      PassingTakes(lib, lines, data, today, Vuln(Null, Null, Null, Null));
    }
  }

  // An advisory of a named package with a GHSA, whatever else it holds.
  ghost predicate HasGhsa(a: seq<(string, Json)>, name: string, ghsa: string)
  {
    && name != "" && FirstOf(a, ["module_name", "name"], Str(name))
    && ghsa != "" && Get(a, "github_advisory_id") == Str(ghsa)
  }

  lemma GhsaRead(lib: Library, a: seq<(string, Json)>, name: string, ghsa: string, v: Vuln)
    requires HasGhsa(a, name, ghsa)
    ensures AdvisoryVuln(lib, Dict(a)).Some?
    ensures AdvisorySays(lib, Dict(a), v) <==>
            && v.name == Str(name) && v.severity == Get(a, "severity") && v.advisory == Str(ghsa)
            && FirstOf(a, ["title", "advisory", "overview", "url"], v.title)
  {
    AdvisoryYields(lib, Dict(a));
    FirstTruthyIsFirst(a, ["module_name", "name"], Str(name));
    FirstTruthyIsFirst(a, ["module_name", "name"], v.name);
  }

  /** An advisory with a GHSA needs an exception for that GHSA, whatever its URL. */
  lemma GhsaNeedsException(
    lib: Library, lines: seq<string>, data: Json, today: int, key: string, a: seq<(string, Json)>, name: string,
    ghsa: string)
    requires data.Dict? && Get(data.entries, "advisories").Dict?
    requires (key, Dict(a)) in Get(data.entries, "advisories").entries && HasGhsa(a, name, ghsa)
    requires Rated(lib, Get(a, "severity"), "high") || Rated(lib, Get(a, "severity"), "critical")
    requires Passes(lib, lines, data, today)
    ensures exists r | r in Records(lines).value ::
              && AllFields(r) && ValidOn(lib, r, today) && Strip(r["package"]) == Strip(name)
              && lib.lower(Strip(r["advisory"])) == lib.lower(Strip(ghsa))
  {
    var title := FirstTruthy(a, ["title", "advisory", "overview", "url"]);
    FirstTruthyIsFirst(a, ["title", "advisory", "overview", "url"], title);
    var v := Vuln(Str(name), Get(a, "severity"), Str(ghsa), title);
    GhsaRead(lib, a, name, ghsa, v);
    assert AdvisorySays(lib, (key, Dict(a)).1, v);
    PassingTakes(lib, lines, data, today, v);
  }

  /** And an exception for that GHSA which is valid and states its severity is enough. */
  lemma GhsaIsExcepted(
    lib: Library, lines: seq<string>, today: int, key: string, a: seq<(string, Json)>, name: string, ghsa: string,
    r: Record)
    requires Records(lines).Some? && UsableRecords(lib, Records(lines).value) && r in Records(lines).value
    requires HasGhsa(a, name, ghsa) && Get(a, "severity").Str?
    requires ValidOn(lib, r, today) && Strip(r["package"]) == Strip(name)
    requires lib.lower(Strip(r["advisory"])) == lib.lower(Strip(ghsa))
    requires Rated(lib, Get(a, "severity"), lib.lower(Strip(r["severity"])))
    ensures Passes(lib, lines, AuditOf([(key, Dict(a))], []), today)
  {
    var data := AuditOf([(key, Dict(a))], []);
    var excs := Records(lines).value;
    AuditParts([(key, Dict(a))], []);
    GhsaRead(lib, a, name, ghsa, Vuln(Null, Null, Null, Null));
    ReportRaises(lib, data);
    forall v | Reports(lib, data, v) ensures v.severity.Str? && Accepted(lib, excs, today, v) {
      GhsaRead(lib, a, name, ghsa, v);
      assert Usable(lib, r);
      assert Excepts(lib, r, v);
    }
    PassingGranted(lib, lines, data, today);
  }
}
