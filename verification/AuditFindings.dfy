/** What the gate reads out of a report, in the terms of the report: which of its fields name
    a package, rate it and identify an advisory, in front of which others. */
module AuditFindings {
  import opened Relations
  import opened AuditData
  import opened AuditScan
  import opened AuditReports

  // dict.get reads the entry of the key, or gives the default.
  lemma {:induction false} GetReads(entries: seq<(string, Json)>, key: string, default: Json)
    ensures (forall e | e in entries :: e.0 != key) ==> GetOr(entries, key, default) == default
    ensures DistinctBy(entries, (e: (string, Json)) => e.0) ==>
              forall e | e in entries && e.0 == key :: GetOr(entries, key, default) == e.1
  {
    if entries == [] {
    } else {
      var rest := entries[1..];
      assert entries == [entries[0]] + rest;
      GetReads(rest, key, default);
      if DistinctBy(entries, (e: (string, Json)) => e.0) {
        assert forall i | 0 <= i < |rest| :: rest[i] == entries[i + 1];
      }
    }
  }

  // Key i is the first with a truthy value, or the last one.
  ghost predicate FirstTruthyAt(e: seq<(string, Json)>, keys: seq<string>, i: nat)
  {
    && i < |keys| && (Truthy(Get(e, keys[i])) || i == |keys| - 1)
    && forall j | 0 <= j < i :: !Truthy(Get(e, keys[j]))
  }

  // x is what the first of these keys with a truthy value holds, or else the last key.
  ghost predicate FirstOf(e: seq<(string, Json)>, keys: seq<string>, x: Json)
  {
    exists i: nat | FirstTruthyAt(e, keys, i) :: x == Get(e, keys[i])
  }

  lemma {:induction false} SomeFirstTruthy(e: seq<(string, Json)>, keys: seq<string>) returns (i: nat)
    requires keys != []
    ensures FirstTruthyAt(e, keys, i) && Get(e, keys[i]) == FirstTruthy(e, keys)
  {
    if |keys| == 1 || Truthy(Get(e, keys[0])) {
      i := 0;
    } else {
      var k := SomeFirstTruthy(e, keys[1..]);
      i := k + 1;
      assert forall j | 0 < j < i :: keys[j] == keys[1..][j - 1];
    }
  }

  lemma FirstTruthyIsFirst(e: seq<(string, Json)>, keys: seq<string>, x: Json)
    requires keys != []
    ensures FirstOf(e, keys, x) <==> x == FirstTruthy(e, keys)
  {
    var i := SomeFirstTruthy(e, keys);
    forall k: nat | FirstTruthyAt(e, keys, k) ensures k == i {
    }
  }

  // The list of CVEs names none: it is absent or empty, or its first one is.
  predicate NoCve(cves: Json)
  {
    !Truthy(cves) || (cves.List? && !Truthy(cves.items[0]))
  }

  // The identifier of an advisory: its GHSA, else its URL, else its first CVE, else its
  // number, else a text.
  ghost predicate Identifies(lib: Library, a: seq<(string, Json)>, id: Json)
  {
    var ghsa, url, cves, number := Get(a, "github_advisory_id"), Get(a, "url"), Get(a, "cves"), Get(a, "id");
    if Truthy(ghsa) then id == ghsa
    else if Truthy(url) then id == url
    else if !NoCve(cves) then
      (cves.List? && id == cves.items[0]) || (cves.Str? && id == Str(cves.s[..1]))
    else if number.Str? && number.s != "" then id == number
    else if number.Str? || number == Null || lib.text(number) == "" then
      FirstOf(a, ["title", "advisory", "overview"], id)
    else id == Str(lib.text(number))
  }

  // The first CVE cannot be read of a truthy value that is neither a list nor a string.
  ghost predicate Unidentifiable(a: seq<(string, Json)>)
  {
    var cves := Get(a, "cves");
    && !Truthy(Get(a, "github_advisory_id")) && !Truthy(Get(a, "url"))
    && Truthy(cves) && !cves.List? && !cves.Str?
  }

  /** An advisory is identified by its GHSA whenever it has one, else by its URL, its first
      CVE, its number, or one of its texts, in this order. */
  lemma IdentifierOrder(lib: Library, a: seq<(string, Json)>)
    ensures PickAdvisoryId(lib, a).None? <==> Unidentifiable(a)
    ensures PickAdvisoryId(lib, a).Some? ==>
              forall id :: Identifies(lib, a, id) <==> id == PickAdvisoryId(lib, a).value
  {
    var stable := FirstTruthy(a, ["github_advisory_id", "url"]);
    FirstTruthyIsFirst(a, ["github_advisory_id", "url"], stable);
    assert FirstOf(a, ["github_advisory_id", "url"], stable);
    assert stable == if Truthy(Get(a, "github_advisory_id")) then Get(a, "github_advisory_id") else Get(a, "url");
    forall id ensures FirstOf(a, ["title", "advisory", "overview"], id) <==>
                      id == FirstTruthy(a, ["title", "advisory", "overview"])
    {
      FirstTruthyIsFirst(a, ["title", "advisory", "overview"], id);
    }
  }

  // What an entry of the advisories says of a vulnerability.
  ghost predicate AdvisorySays(lib: Library, advisory: Json, v: Vuln)
  {
    && advisory.Dict?
    && FirstOf(advisory.entries, ["module_name", "name"], v.name)
    && v.severity == Get(advisory.entries, "severity")
    && Identifies(lib, advisory.entries, v.advisory)
    && FirstOf(advisory.entries, ["title", "advisory", "overview", "url"], v.title)
  }

  lemma AdvisoryYields(lib: Library, advisory: Json)
    ensures AdvisoryVuln(lib, advisory).None? <==> !advisory.Dict? || Unidentifiable(advisory.entries)
    ensures AdvisoryVuln(lib, advisory).Some? ==>
              forall v :: AdvisorySays(lib, advisory, v) <==> AdvisoryVuln(lib, advisory).value == v
  {
    if advisory.Dict? {
      var e := advisory.entries;
      IdentifierOrder(lib, e);
      forall v ensures AdvisoryVuln(lib, advisory).Some? ==>
                         (AdvisorySays(lib, advisory, v) <==> AdvisoryVuln(lib, advisory).value == v)
      {
        FirstTruthyIsFirst(e, ["module_name", "name"], v.name);
        FirstTruthyIsFirst(e, ["title", "advisory", "overview", "url"], v.title);
      }
    }
  }

  // What one element of via says: a text stands for itself.
  ghost predicate ViaSays(item: Json, id: Json, title: Json)
  {
    || (item.Str? && id == title == item)
    || (&& item.Dict?
        && FirstOf(item.entries, ["github_advisory_id", "url", "source", "title", "name"], id)
        && FirstOf(item.entries, ["title", "url", "advisory", "source"], title))
  }

  /** A via element is identified by its GHSA whenever it has one, else by its URL, its source,
      its title or its name; it is titled by its title, else by its URL, its advisory or its
      source. A text is both, and other elements say nothing. */
  lemma ViaOrder(item: Json, id: Json, title: Json)
    ensures ViaAdvisories(item) == [id] && ViaTitles(item) == [title] <==> ViaSays(item, id, title)
    ensures !item.Dict? && !item.Str? ==> ViaAdvisories(item) == [] && ViaTitles(item) == []
  {
    if item.Dict? {
      FirstTruthyIsFirst(item.entries, ["github_advisory_id", "url", "source", "title", "name"], id);
      FirstTruthyIsFirst(item.entries, ["title", "url", "advisory", "source"], title);
    }
  }

  lemma {:induction false} CollectedFrom(f: Json -> seq<Json>, items: seq<Json>, x: Json)
    ensures x in Collect(f, items) <==> exists item | item in items :: x in f(item)
  {
    if items == [] {
    } else {
      CollectedFrom(f, items[..|items| - 1], x);
      assert items == items[..|items| - 1] + [items[|items| - 1]];
    }
  }

  lemma {:induction false} YieldedFrom(name: string, severity: Json, advisories: seq<Json>, title: string, v: Vuln)
    ensures v in Yielded(name, severity, advisories, title) <==>
            v.advisory in advisories && Truthy(v.advisory) && v == Vuln(Str(name), severity, v.advisory, Str(title))
  {
    if advisories == [] {
    } else {
      YieldedFrom(name, severity, advisories[..|advisories| - 1], title, v);
      assert advisories == advisories[..|advisories| - 1] + [advisories[|advisories| - 1]];
    }
  }

  // The elements of via: those of a list, or a text alone.
  ghost predicate InVia(vuln: seq<(string, Json)>, item: Json)
  {
    var via := Get(vuln, "via");
    (via.List? && item in via.items) || (via.Str? && item == via)
  }

  // Some element of via gives this identifier.
  ghost predicate ViaNames(vuln: seq<(string, Json)>, id: Json)
  {
    exists item, title | ViaSays(item, id, title) :: InVia(vuln, item)
  }

  // The truthy titles, in front-to-back order, with a separator between them.
  function JoinedTitles(titles: seq<Json>): string
  {
    if titles == [] then ""
    else
      var rest := JoinedTitles(titles[1..]);
      if !Truthy(titles[0]) || !titles[0].Str? then rest
      else if rest == "" then titles[0].s
      else titles[0].s + "; " + rest
  }

  // What an entry of the packages says of a vulnerability.
  ghost predicate PackageSays(package: (string, Json), v: Vuln)
  {
    && package.1.Dict?
    && v.name == Str(package.0) && v.severity == Get(package.1.entries, "severity")
    && Truthy(v.advisory) && ViaNames(package.1.entries, v.advisory)
    && v.title == Str(JoinedTitles(Collect(ViaTitles, Via(package.1))))
  }

  lemma {:induction false} JoinedAppend(titles: seq<Json>, t: Json)
    ensures JoinedTitles(titles + [t]) ==
            if !Truthy(t) || !t.Str? then JoinedTitles(titles)
            else if JoinedTitles(titles) == "" then t.s
            else JoinedTitles(titles) + "; " + t.s
  {
    if titles == [] {
      assert titles + [t] == [t] && [t][1..] == [];
    } else {
      assert (titles + [t])[1..] == titles[1..] + [t];
      JoinedAppend(titles[1..], t);
      if Truthy(t) && t.Str? && Truthy(titles[0]) && titles[0].Str? && JoinedTitles(titles[1..]) != "" {
        var rest := JoinedTitles(titles[1..]);
        assert titles[0].s + "; " + (rest + "; " + t.s) == titles[0].s + "; " + rest + "; " + t.s;
      }
    }
  }

  /** The title of a package joins the truthy titles of its via elements, in order. */
  lemma {:induction false} TitlesJoined(titles: seq<Json>)
    ensures JoinTitles(titles).Some? ==> JoinTitles(titles).value == JoinedTitles(titles)
  {
    if titles == [] {
    } else {
      var n := |titles| - 1;
      TitlesJoined(titles[..n]);
      assert titles == titles[..n] + [titles[n]];
      JoinedAppend(titles[..n], titles[n]);
    }
  }

  lemma ViaRead(vuln: Json, id: Json)
    requires vuln.Dict?
    ensures id in Collect(ViaAdvisories, Via(vuln)) <==> ViaNames(vuln.entries, id)
  {
    var via := GetOr(vuln.entries, "via", List([]));
    GetDefaults(vuln.entries, "via", List([]));
    CollectedFrom(ViaAdvisories, Via(vuln), id);
    forall item ensures item in Via(vuln) <==> InVia(vuln.entries, item) {
    }
    if item :| item in Via(vuln) && id in ViaAdvisories(item) {
      ViaOrder(item, id, ViaTitles(item)[0]);
      assert ViaSays(item, id, ViaTitles(item)[0]);
    }
    if ViaNames(vuln.entries, id) {
      var item, title :| ViaSays(item, id, title) && InVia(vuln.entries, item);
      ViaOrder(item, id, title);
      assert id in ViaAdvisories(item);
    }
  }

  lemma {:induction false} GetDefaults(entries: seq<(string, Json)>, key: string, default: Json)
    ensures GetOr(entries, key, default) == Get(entries, key) ||
            (GetOr(entries, key, default) == default && Get(entries, key) == Null)
  {
    if entries == [] {
    } else {
      GetDefaults(entries[1..], key, default);
    }
  }

  lemma PackageYields(package: (string, Json), v: Vuln)
    requires PackageVulns(package.0, package.1).Some?
    ensures v in PackageVulns(package.0, package.1).value <==> PackageSays(package, v)
  {
    var titles, ids := Collect(ViaTitles, Via(package.1)), Collect(ViaAdvisories, Via(package.1));
    TitlesJoined(titles);
    ViaRead(package.1, v.advisory);
    YieldedFrom(package.0, Get(package.1.entries, "severity"), ids, JoinedTitles(titles), v);
  }

  // The report has an entry that says this.
  ghost predicate Reports(lib: Library, data: Json, v: Vuln)
    requires data.Dict?
  {
    var advisories, packages := Get(data.entries, "advisories"), Get(data.entries, "vulnerabilities");
    || (advisories.Dict? && exists e | e in advisories.entries :: AdvisorySays(lib, e.1, v))
    || (packages.Dict? && exists e | e in packages.entries :: PackageSays(e, v))
  }

  lemma {:induction false} AdvisoriesMembers(lib: Library, advisories: seq<(string, Json)>, v: Vuln)
    requires AdvisoryVulns(lib, advisories).Some?
    ensures v in AdvisoryVulns(lib, advisories).value <==> exists e | e in advisories :: AdvisorySays(lib, e.1, v)
  {
    if advisories == [] {
    } else {
      var init, last := advisories[..|advisories| - 1], advisories[|advisories| - 1];
      AdvisoriesMembers(lib, init, v);
      AdvisoryYields(lib, last.1);
      assert advisories == init + [last];
    }
  }

  /** The generator yields exactly what the entries of the report say. */
  lemma FindingsAreYielded(lib: Library, data: Json, v: Vuln)
    requires AllVulns(lib, data).Some?
    ensures data.Dict? && (v in AllVulns(lib, data).value <==> Reports(lib, data, v))
  {
    AdvisoriesMembers(lib, Advisories(data), v);
    PackagesMembers(Packages(data), v);
    forall e | e in Packages(data) ensures Yields(e, v) <==> PackageSays(e, v) {
      PackagesRaise(Packages(data));
      PackageRaisesOrYields(e.0, e.1);
      PackageYields(e, v);
    }
  }
}
