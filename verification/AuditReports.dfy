/** The order of a report, from the lines of the exception file and the decoded JSON: what the
    order of the advisories decides, and why the order of the packages does not. */
module AuditReports {
  import opened Wrappers
  import opened Relations
  import opened PyText
  import opened AuditExceptions
  import opened AuditData
  import opened AuditScan
  import opened AuditGate
  import opened AuditVerdict
  import opened AuditInvariance

  function Advisories(data: Json): seq<(string, Json)>
    requires data.Dict?
  {
    Entries(Get(data.entries, "advisories"))
  }

  function Packages(data: Json): seq<(string, Json)>
    requires data.Dict?
  {
    Entries(Get(data.entries, "vulnerabilities"))
  }

  // What a readable advisory yields.
  function FindingOf(lib: Library, advisory: (string, Json)): Vuln
  {
    match AdvisoryVuln(lib, advisory.1)
    case Some(v) => v
    case None => Vuln(Null, Null, Null, Null)
  }

  // The generator yields one entry per advisory, in order.
  lemma {:induction false} AdvisoriesMapped(lib: Library, advisories: seq<(string, Json)>)
    requires AdvisoryVulns(lib, advisories).Some?
    ensures AdvisoryVulns(lib, advisories) == Some(Mapped(e => FindingOf(lib, e), advisories))
  {
    var read := (e: (string, Json)) => FindingOf(lib, e);
    if advisories == [] {
    } else {
      var n := |advisories| - 1;
      AdvisoriesMapped(lib, advisories[..n]);
      assert Mapped(read, advisories) == Mapped(read, advisories[..n]) + [read(advisories[n])];
    }
  }

  lemma {:induction false} PermutedAdvisories(lib: Library, advisories: seq<(string, Json)>, other: seq<(string, Json)>)
    requires Permutes(advisories, other)
    ensures AdvisoryVulns(lib, advisories).Some? <==> AdvisoryVulns(lib, other).Some?
    ensures AdvisoryVulns(lib, advisories).Some? ==>
              Permutes(AdvisoryVulns(lib, advisories).value, AdvisoryVulns(lib, other).value)
  {
    SameMembers(advisories, other);
    AdvisoriesRaise(lib, advisories);
    AdvisoriesRaise(lib, other);
    if AdvisoryVulns(lib, advisories).Some? {
      AdvisoriesMapped(lib, advisories);
      AdvisoriesMapped(lib, other);
      MappedPermutes(e => FindingOf(lib, e), advisories, other);
    }
  }

  // Every order of the entries comes from an order of the advisories.
  lemma OrderOfAdvisories(lib: Library, advisories: seq<(string, Json)>, vulns: seq<Vuln>)
    returns (other: seq<(string, Json)>)
    requires AdvisoryVulns(lib, advisories).Some? && Permutes(vulns, AdvisoryVulns(lib, advisories).value)
    ensures Permutes(other, advisories) && AdvisoryVulns(lib, other) == Some(vulns)
  {
    AdvisoriesMapped(lib, advisories);
    other := LiftPermutation(e => FindingOf(lib, e), advisories, vulns);
    PermutedAdvisories(lib, other, advisories);
    AdvisoriesMapped(lib, other);
  }

  function AuditOf(advisories: seq<(string, Json)>, packages: seq<(string, Json)>): Json
  {
    Dict([("advisories", Dict(advisories)), ("vulnerabilities", Dict(packages))])
  }

  lemma AuditParts(advisories: seq<(string, Json)>, packages: seq<(string, Json)>)
    ensures Advisories(AuditOf(advisories, packages)) == advisories
    ensures Packages(AuditOf(advisories, packages)) == packages
  {
    var e := AuditOf(advisories, packages).entries;
    assert |"advisories"| == 10 && |"vulnerabilities"| == 15 && e[1..] == [("vulnerabilities", Dict(packages))];
    assert GetOr(e[1..], "vulnerabilities", Null) == Dict(packages);
  }

  // The other report lists the same advisories, in another order.
  ghost predicate Reordered(data: Json, other: Json)
  {
    && data.Dict? && other.Dict?
    && Packages(other) == Packages(data) && Permutes(Advisories(other), Advisories(data))
  }

  ghost predicate ReportOrderIndependent(lib: Library, lines: seq<string>, data: Json, today: int)
  {
    forall other | Reordered(data, other) :: Passes(lib, lines, other, today) <==> Passes(lib, lines, data, today)
  }

  // One of the files makes the program raise, or the yielded entries settle the verdict.
  ghost predicate ReportOrderIrrelevant(lib: Library, lines: seq<string>, data: Json, today: int)
    requires data.Dict?
  {
    || Records(lines).None? || AllVulns(lib, data).None?
    || OrderIrrelevant(lib, Records(lines).value, AdvisoryVulns(lib, Advisories(data)).value,
                       PackagesVulns(Packages(data)).value, today)
  }

  /** The exit status depends on the order of the advisories of a report exactly when neither
      file makes the program raise, everything else is in order, some advisory disagrees with
      its exception on the severity, and every key of an advisory has one that agrees. */
  lemma {:induction false} ReportOrderDependence(lib: Library, lines: seq<string>, data: Json, today: int)
    requires data.Dict?
    ensures ReportOrderIndependent(lib, lines, data, today) <==> ReportOrderIrrelevant(lib, lines, data, today)
  {
    if ReportOrderIrrelevant(lib, lines, data, today) {
      forall other | Reordered(data, other)
        ensures Passes(lib, lines, other, today) <==> Passes(lib, lines, data, today)
      {
        SettledReport(lib, lines, data, other, today);
      }
    } else {
      UnsettledReport(lib, lines, data, today);
    }
  }

  lemma SettledReport(lib: Library, lines: seq<string>, data: Json, other: Json, today: int)
    requires Reordered(data, other) && ReportOrderIrrelevant(lib, lines, data, today)
    ensures Passes(lib, lines, other, today) <==> Passes(lib, lines, data, today)
  {
    PermutedAdvisories(lib, Advisories(other), Advisories(data));
    if Records(lines).Some? && AllVulns(lib, data).Some? {
      var a, b := AdvisoryVulns(lib, Advisories(data)).value, PackagesVulns(Packages(data)).value;
      IrrelevantIsIndependent(lib, Records(lines).value, a, AdvisoryVulns(lib, Advisories(other)).value, b, today);
    }
  }

  // A report that yields its advisories in the given order.
  lemma {:induction false} ReportInOrder(lib: Library, lines: seq<string>, data: Json, vulns: seq<Vuln>, today: int)
    returns (other: Json)
    requires data.Dict? && Records(lines).Some? && AllVulns(lib, data).Some?
    requires Permutes(vulns, AdvisoryVulns(lib, Advisories(data)).value)
    ensures Reordered(data, other)
    ensures Passes(lib, lines, other, today) <==>
            Clean(lib, Records(lines).value, vulns + PackagesVulns(Packages(data)).value, today)
  {
    var advisories := OrderOfAdvisories(lib, Advisories(data), vulns);
    other := AuditOf(advisories, Packages(data));
    AuditParts(advisories, Packages(data));
    assert AllVulns(lib, other) == Some(vulns + PackagesVulns(Packages(data)).value);
  }

  lemma {:induction false} UnsettledReport(lib: Library, lines: seq<string>, data: Json, today: int)
    requires data.Dict?
    ensures ReportOrderIndependent(lib, lines, data, today) ==> ReportOrderIrrelevant(lib, lines, data, today)
  {
    if ReportOrderIrrelevant(lib, lines, data, today) {
      return;
    }
    var a, b := AdvisoryVulns(lib, Advisories(data)).value, PackagesVulns(Packages(data)).value;
    var passing, failing := TwoVerdicts(lib, Records(lines).value, a, b, today);
    var good := ReportInOrder(lib, lines, data, passing, today);
    var bad := ReportInOrder(lib, lines, data, failing, today);
  }

  // The package yields v.
  predicate Yields(package: (string, Json), v: Vuln)
  {
    var yielded := PackageVulns(package.0, package.1);
    yielded.Some? && v in yielded.value
  }

  ghost predicate SomeYields(packages: seq<(string, Json)>, v: Vuln)
  {
    exists e | e in packages :: Yields(e, v)
  }

  lemma SomeYieldsAppend(packages: seq<(string, Json)>, last: (string, Json), v: Vuln)
    ensures SomeYields(packages + [last], v) <==> SomeYields(packages, v) || Yields(last, v)
  {
    assert last in packages + [last];
    if e :| e in packages && Yields(e, v) {
      assert e in packages + [last];
    }
  }

  lemma PackagesAppend(init: seq<(string, Json)>, last: (string, Json))
    requires PackagesVulns(init + [last]).Some?
    ensures PackagesVulns(init).Some? && PackageVulns(last.0, last.1).Some?
    ensures PackagesVulns(init + [last]).value == PackagesVulns(init).value + PackageVulns(last.0, last.1).value
  {
    assert (init + [last])[..|init|] == init;
  }

  lemma InConcat<T>(s: seq<T>, t: seq<T>, x: T)
    ensures x in s + t <==> x in s || x in t
  {
  }

  // What the packages yield, package by package.
  lemma {:induction false} PackagesMembers(packages: seq<(string, Json)>, v: Vuln)
    requires PackagesVulns(packages).Some?
    ensures v in PackagesVulns(packages).value <==> SomeYields(packages, v)
  {
    if packages == [] {
    } else {
      var init, last := packages[..|packages| - 1], packages[|packages| - 1];
      assert packages == init + [last];
      PackagesAppend(init, last);
      PackagesMembers(init, v);
      InConcat(PackagesVulns(init).value, PackageVulns(last.0, last.1).value, v);
      SomeYieldsAppend(init, last, v);
    }
  }

  // All entries of one package carry its name and its severity.
  lemma {:induction false} YieldedUniform(name: string, severity: Json, advisories: seq<Json>, title: string)
    ensures forall v | v in Yielded(name, severity, advisories, title) :: v.name == Str(name) && v.severity == severity
  {
    if advisories == [] {
    } else {
      YieldedUniform(name, severity, advisories[..|advisories| - 1], title);
    }
  }

  lemma PackageUniform(name: string, vuln: Json, v: Vuln)
    requires PackageVulns(name, vuln).Some? && v in PackageVulns(name, vuln).value
    ensures vuln.Dict? && v.name == Str(name) && v.severity == Get(vuln.entries, "severity")
  {
    var title := JoinTitles(Collect(ViaTitles, Via(vuln))).value;
    YieldedUniform(name, Get(vuln.entries, "severity"), Collect(ViaAdvisories, Via(vuln)), title);
  }

  ghost predicate NamesDistinct(packages: seq<(string, Json)>)
  {
    DistinctBy(packages, (e: (string, Json)) => Strip(e.0))
  }

  lemma SameName(packages: seq<(string, Json)>, e: (string, Json), f: (string, Json))
    requires NamesDistinct(packages) && e in packages && f in packages && Strip(e.0) == Strip(f.0)
    ensures e == f
  {
    var i :| 0 <= i < |packages| && packages[i] == e;
    var j :| 0 <= j < |packages| && packages[j] == f;
  }

  lemma PackagesOneSeverity(lib: Library, packages: seq<(string, Json)>)
    requires PackagesVulns(packages).Some?
    ensures NamesDistinct(packages) ==> OneSeverityPerKey(lib, PackagesVulns(packages).value)
  {
    if !NamesDistinct(packages) {
      return;
    }
    var p := PackagesVulns(packages).value;
    forall v, w | v in p && w in p && Keyed(lib, v) && Keyed(lib, w) && VulnKey(lib, v) == VulnKey(lib, w)
      ensures Severity(lib, v) == Severity(lib, w)
    {
      PackagesMembers(packages, v);
      PackagesMembers(packages, w);
      var e :| e in packages && Yields(e, v);
      var f :| f in packages && Yields(f, w);
      PackageUniform(e.0, e.1, v);
      PackageUniform(f.0, f.1, w);
      SameName(packages, e, f);
    }
  }

  // Behind the same entries, lists of the same entries are compared alike.
  lemma SameLater(lib: Library, excs: seq<Record>, a: seq<Vuln>, p: seq<Vuln>, q: seq<Vuln>)
    requires (forall v | v in p :: v in q) && OneSeverityPerKey(lib, q)
    requires LaterAgree(lib, excs, a, q)
    ensures LaterAgree(lib, excs, a, p)
  {
    forall i | FirstOfKey(lib, p, i) && !Seen(lib, a, VulnKey(lib, p[i])) ensures Agrees(lib, excs, p[i]) {
      assert p[i] in p;
      var j := FirstOfEachKey(lib, q, p[i]);
      assert Agrees(lib, excs, q[j]) && q[j] in q;
    }
  }

  /** The order of the packages never matters, as long as no two names differ in white space
      at their ends only. */
  lemma PackageOrder(lib: Library, lines: seq<string>, data: Json, other: Json, today: int)
    requires data.Dict? && other.Dict? && Advisories(other) == Advisories(data)
    requires Permutes(Packages(other), Packages(data)) && NamesDistinct(Packages(data))
    ensures Passes(lib, lines, other, today) <==> Passes(lib, lines, data, today)
  {
    SameMembers(Packages(other), Packages(data));
    PackagesRaise(Packages(data));
    PackagesRaise(Packages(other));
    if Records(lines).Some? && AllVulns(lib, data).Some? {
      DistinctByPermutation(Packages(data), Packages(other), (e: (string, Json)) => Strip(e.0));
      PackagesOneSeverity(lib, Packages(data));
      PackagesOneSeverity(lib, Packages(other));
      var a, p, q := AdvisoryVulns(lib, Advisories(data)).value, PackagesVulns(Packages(data)).value,
        PackagesVulns(Packages(other)).value;
      forall v ensures v in p <==> v in q {
        PackagesMembers(Packages(data), v);
        PackagesMembers(Packages(other), v);
        assert SomeYields(Packages(data), v) <==> SomeYields(Packages(other), v);
      }
      SamePackages(lib, Records(lines).value, a, p, q, today);
    }
  }

  lemma SamePackages(lib: Library, excs: seq<Record>, a: seq<Vuln>, p: seq<Vuln>, q: seq<Vuln>, today: int)
    requires (forall v :: v in p <==> v in q) && OneSeverityPerKey(lib, p) && OneSeverityPerKey(lib, q)
    ensures Clean(lib, excs, a + p, today) <==> Clean(lib, excs, a + q, today)
  {
    FirstsAgreeConcat(lib, excs, a, p);
    FirstsAgreeConcat(lib, excs, a, q);
    if LaterAgree(lib, excs, a, q) {
      SameLater(lib, excs, a, p, q);
    }
    if LaterAgree(lib, excs, a, p) {
      SameLater(lib, excs, a, q, p);
    }
    assert forall v :: v in a + p <==> v in a + q;
  }

  lemma {:induction false} AdvisoriesConcat(lib: Library, first: seq<(string, Json)>, more: seq<(string, Json)>)
    requires AdvisoryVulns(lib, first + more).Some?
    ensures AdvisoryVulns(lib, first).Some? && AdvisoryVulns(lib, more).Some?
    ensures AdvisoryVulns(lib, first + more).value == AdvisoryVulns(lib, first).value + AdvisoryVulns(lib, more).value
  {
    if more == [] {
      assert first + more == first;
    } else {
      var n := |more| - 1;
      assert (first + more)[..|first + more| - 1] == first + more[..n];
      AdvisoriesConcat(lib, first, more[..n]);
    }
  }

  /** Further advisories at the end of their list: a report that passes with them passes
      without them exactly when they hide no package entry that disagrees. */
  lemma MoreAdvisories(lib: Library, lines: seq<string>, data: Json, other: Json, more: seq<(string, Json)>, today: int)
    requires data.Dict? && other.Dict? && Packages(other) == Packages(data)
    requires Advisories(other) == Advisories(data) + more && Passes(lib, lines, other, today)
    ensures AdvisoryVulns(lib, Advisories(data)).Some? && AdvisoryVulns(lib, more).Some?
    ensures PackagesVulns(Packages(data)).Some? && Records(lines).Some?
    ensures Passes(lib, lines, data, today) <==>
            HiddenAgree(lib, Records(lines).value, AdvisoryVulns(lib, Advisories(data)).value,
                        AdvisoryVulns(lib, more).value, PackagesVulns(Packages(data)).value)
  {
    AdvisoriesConcat(lib, Advisories(data), more);
    MoreEntries(lib, Records(lines).value, AdvisoryVulns(lib, Advisories(data)).value, AdvisoryVulns(lib, more).value,
                PackagesVulns(Packages(data)).value, today);
  }

  /** Numeric sources are not supported after all: one via element identified by a number,
      anywhere in the report, makes the program fail. */
  lemma NumericSourceFails(
    lib: Library, lines: seq<string>, data: Json, package: (string, Json), item: Json, today: int)
    requires data.Dict? && package in Packages(data) && package.1.Dict? && item in Via(package.1) && NumericSource(item)
    ensures !Passes(lib, lines, data, today)
  {
    NumericSourceRaises(lib, data, package, item);
  }
}
