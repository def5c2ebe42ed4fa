/** iter_vulns as the loops it is, and when it raises or stays silent. */
module AuditScan {
  import opened Wrappers
  import opened AuditData

  lemma {:induction false} AdvisoryVulnsRaise(lib: Library, advisories: seq<(string, Json)>, i: nat)
    requires i <= |advisories| && AdvisoryVulns(lib, advisories[..i]).None?
    ensures AdvisoryVulns(lib, advisories).None?
  {
    if i == |advisories| {
      assert advisories[..i] == advisories;
    } else {
      assert advisories[..|advisories| - 1][..i] == advisories[..i];
      AdvisoryVulnsRaise(lib, advisories[..|advisories| - 1], i);
    }
  }

  lemma {:induction false} PackagesVulnsRaise(packages: seq<(string, Json)>, i: nat)
    requires i <= |packages| && PackagesVulns(packages[..i]).None?
    ensures PackagesVulns(packages).None?
  {
    if i == |packages| {
      assert packages[..i] == packages;
    } else {
      assert packages[..|packages| - 1][..i] == packages[..i];
      PackagesVulnsRaise(packages[..|packages| - 1], i);
    }
  }

  // The inner loops: collect the advisories and titles of one package, then yield.
  method ReadPackage(name: string, vuln: Json) returns (r: Option<seq<Vuln>>)
    ensures r == PackageVulns(name, vuln)
  {
    if !vuln.Dict? {
      return None;
    }
    var severity := Get(vuln.entries, "severity");
    var items := ViaItems(GetOr(vuln.entries, "via", List([])));
    var titles, advisories := [], [];
    for i := 0 to |items|
      invariant titles == Collect(ViaTitles, items[..i])
      invariant advisories == Collect(ViaAdvisories, items[..i])
    {
      assert items[..i + 1][..i] == items[..i];
      advisories := advisories + ViaAdvisories(items[i]);
      titles := titles + ViaTitles(items[i]);
    }
    assert items[..|items|] == items;
    var title := JoinTitles(titles);
    if title.None? {
      return None;
    }
    var yielded := [];
    for i := 0 to |advisories|
      invariant yielded == Yielded(name, severity, advisories[..i], title.value)
    {
      assert advisories[..i + 1][..i] == advisories[..i];
      if Truthy(advisories[i]) {
        yielded := yielded + [Vuln(Str(name), severity, advisories[i], Str(title.value))];
      }
    }
    assert advisories[..|advisories|] == advisories;
    r := Some(yielded);
  }

  method IterVulns(lib: Library, data: Json) returns (r: Option<seq<Vuln>>)
    ensures r == AllVulns(lib, data)
  {
    if !data.Dict? {
      return None;
    }
    var advisories := Entries(Get(data.entries, "advisories"));
    var yielded := [];
    for i := 0 to |advisories|
      invariant AdvisoryVulns(lib, advisories[..i]) == Some(yielded)
    {
      assert advisories[..i + 1][..i] == advisories[..i];
      match AdvisoryVuln(lib, advisories[i].1)
      case None =>
        AdvisoryVulnsRaise(lib, advisories, i + 1);
        return None;
      case Some(v) =>
        yielded := yielded + [v];
    }
    assert advisories[..|advisories|] == advisories;
    var packages := Entries(Get(data.entries, "vulnerabilities"));
    var more := [];
    for i := 0 to |packages|
      invariant PackagesVulns(packages[..i]) == Some(more)
    {
      assert packages[..i + 1][..i] == packages[..i];
      var read := ReadPackage(packages[i].0, packages[i].1);
      if read.None? {
        PackagesVulnsRaise(packages, i + 1);
        return None;
      }
      more := more + read.value;
    }
    assert packages[..|packages|] == packages;
    r := Some(yielded + more);
  }

  // Some title cannot be joined.
  predicate Unjoinable(titles: seq<Json>)
  {
    exists t | t in titles :: Truthy(t) && !t.Str?
  }

  lemma {:induction false} JoinRaises(titles: seq<Json>)
    ensures JoinTitles(titles).None? <==> Unjoinable(titles)
  {
    if titles == [] {
    } else {
      JoinRaises(titles[..|titles| - 1]);
      assert titles == titles[..|titles| - 1] + [titles[|titles| - 1]];
    }
  }

  lemma {:induction false} YieldedMembers(name: string, severity: Json, advisories: seq<Json>, title: string)
    ensures Yielded(name, severity, advisories, title) == [] <==> forall a | a in advisories :: !Truthy(a)
    ensures forall a | a in advisories && Truthy(a) ::
              Vuln(Str(name), severity, a, Str(title)) in Yielded(name, severity, advisories, title)
  {
    if advisories == [] {
    } else {
      YieldedMembers(name, severity, advisories[..|advisories| - 1], title);
      assert advisories == advisories[..|advisories| - 1] + [advisories[|advisories| - 1]];
    }
  }

  function Via(vuln: Json): seq<Json>
    requires vuln.Dict?
  {
    ViaItems(GetOr(vuln.entries, "via", List([])))
  }

  /** Reading a package raises exactly when the entry is no dict or one of its via titles is
      truthy without being a string. When it does not, it yields nothing, whatever the
      severity, exactly when no via element names an advisory. */
  lemma PackageRaisesOrYields(name: string, vuln: Json)
    ensures PackageVulns(name, vuln).None? <==>
            !vuln.Dict? || Unjoinable(Collect(ViaTitles, Via(vuln)))
    ensures PackageVulns(name, vuln).Some? ==>
              (PackageVulns(name, vuln).value == [] <==>
                forall a | a in Collect(ViaAdvisories, Via(vuln)) :: !Truthy(a))
  {
    if vuln.Dict? {
      JoinRaises(Collect(ViaTitles, Via(vuln)));
      match JoinTitles(Collect(ViaTitles, Via(vuln)))
      case None =>
      case Some(title) =>
        YieldedMembers(name, Get(vuln.entries, "severity"), Collect(ViaAdvisories, Via(vuln)), title);
    }
  }

  // A package that stops the program.
  predicate RaisingPackage(vuln: Json)
  {
    !vuln.Dict? || Unjoinable(Collect(ViaTitles, Via(vuln)))
  }

  lemma {:induction false} AdvisoriesRaise(lib: Library, advisories: seq<(string, Json)>)
    ensures AdvisoryVulns(lib, advisories).None? <==> exists e | e in advisories :: AdvisoryVuln(lib, e.1).None?
  {
    if advisories == [] {
    } else {
      var init, last := advisories[..|advisories| - 1], advisories[|advisories| - 1];
      AdvisoriesRaise(lib, init);
      assert advisories == init + [last];
    }
  }

  lemma {:induction false} PackagesRaise(packages: seq<(string, Json)>)
    ensures PackagesVulns(packages).None? <==> exists e | e in packages :: RaisingPackage(e.1)
  {
    if packages == [] {
    } else {
      var init, last := packages[..|packages| - 1], packages[|packages| - 1];
      PackagesRaise(init);
      PackageRaisesOrYields(last.0, last.1);
      assert packages == init + [last];
    }
  }

  /** Reading a report raises exactly when it is no dict, when an advisory raises, or when a
      package is no dict or has a truthy via title that is no string. */
  lemma ReportRaises(lib: Library, data: Json)
    ensures AllVulns(lib, data).None? <==>
            || !data.Dict?
            || (exists e | e in Entries(Get(data.entries, "advisories")) :: AdvisoryVuln(lib, e.1).None?)
            || exists e | e in Entries(Get(data.entries, "vulnerabilities")) :: RaisingPackage(e.1)
  {
    if data.Dict? {
      AdvisoriesRaise(lib, Entries(Get(data.entries, "advisories")));
      PackagesRaise(Entries(Get(data.entries, "vulnerabilities")));
    }
  }

  // A via element that says nothing of itself but a non-zero number as its source.
  predicate NumericSource(item: Json)
  {
    item.Dict? && Truthy(FirstTruthy(item.entries, ["title", "url", "advisory", "source"]))
    && FirstTruthy(item.entries, ["title", "url", "advisory", "source"]).Number?
  }

  lemma {:induction false} CollectMembers(f: Json -> seq<Json>, items: seq<Json>, item: Json, x: Json)
    requires item in items && x in f(item)
    ensures x in Collect(f, items)
  {
    var init, last := items[..|items| - 1], items[|items| - 1];
    assert items == init + [last];
    if item in init {
      CollectMembers(f, init, item, x);
    } else {
      assert item == last;
    }
  }

  /** Numeric sources are not supported after all: one via element identified by a number,
      anywhere in a report, stops the program, whatever the severity. */
  lemma NumericSourceRaises(lib: Library, data: Json, package: (string, Json), item: Json)
    requires data.Dict? && package in Entries(Get(data.entries, "vulnerabilities"))
    requires package.1.Dict? && item in Via(package.1) && NumericSource(item)
    ensures AllVulns(lib, data).None?
  {
    var title := FirstTruthy(item.entries, ["title", "url", "advisory", "source"]);
    CollectMembers(ViaTitles, Via(package.1), item, title);
    ReportRaises(lib, data);
    assert RaisingPackage(package.1);
  }
}
