/** Decoded audit reports, and the vulnerabilities iter_vulns reads out of them. None
    stands for an uncaught Python exception, which ends the program with exit status 1. */
module AuditData {
  import opened Wrappers

  // A decoded JSON value. A Dict lists the entries of a Python dict in insertion order.
  datatype Json =
    | Null
    | Bool(b: bool)
    | Number(r: real)
    | Str(s: string)
    | List(items: seq<Json>)
    | Dict(entries: seq<(string, Json)>)

  predicate Truthy(j: Json)
  {
    match j
    case Null => false
    case Bool(b) => b
    case Number(r) => r != 0.0
    case Str(s) => s != ""
    case List(items) => items != []
    case Dict(entries) => entries != []
  }

  // Python's falsy values.
  lemma FalsyMeans(j: Json)
    ensures !Truthy(j) <==> j in {Null, Bool(false), Number(0.0), Str(""), List([]), Dict([])}
  {
    match j
    case Number(r) => assert r == 0.0 ==> j == Number(0.0);
    case Str(s) => assert s == "" ==> j == Str("");
    case List(items) => assert items == [] ==> j == List([]);
    case Dict(entries) => assert entries == [] ==> j == Dict([]);
    case _ =>
  }

  // dict.get(key, default)
  function GetOr(entries: seq<(string, Json)>, key: string, default: Json): Json
  {
    if entries == [] then default
    else if entries[0].0 == key then entries[0].1
    else GetOr(entries[1..], key, default)
  }

  function Get(entries: seq<(string, Json)>, key: string): Json
  {
    GetOr(entries, key, Null)
  }

  // `entries.get(k0) or entries.get(k1) or ...`: the first truthy value, else the last one.
  function FirstTruthy(entries: seq<(string, Json)>, keys: seq<string>): Json
    requires keys != []
  {
    if |keys| == 1 || Truthy(Get(entries, keys[0])) then Get(entries, keys[0])
    else FirstTruthy(entries, keys[1..])
  }

  // The functions of the Python library the gate calls: str.lower, date.fromisoformat as a
  // day number, and str of a value that is not a string.
  datatype Library = Library(lower: string -> string, fromIso: string -> Option<int>, text: Json -> string)

  function StrOf(lib: Library, j: Json): string
  {
    if j.Str? then j.s else lib.text(j)
  }

  // `(cves or [None])[0]`
  function FirstCve(cves: Json): Option<Json>
  {
    if !Truthy(cves) then Some(Null)
    else if cves.List? then Some(cves.items[0])
    else if cves.Str? then Some(Str([cves.s[0]]))
    else None
  }

  function PickAdvisoryId(lib: Library, advisory: seq<(string, Json)>): Option<Json>
  {
    var stable := FirstTruthy(advisory, ["github_advisory_id", "url"]);
    if Truthy(stable) then Some(stable)
    else
      match FirstCve(Get(advisory, "cves"))
      case None => None
      case Some(cve) =>
        if Truthy(cve) then Some(cve)
        else
          var id := Get(advisory, "id");
          if id != Null && StrOf(lib, id) != "" then Some(Str(StrOf(lib, id)))
          else Some(FirstTruthy(advisory, ["title", "advisory", "overview"]))
  }

  datatype Vuln = Vuln(name: Json, severity: Json, advisory: Json, title: Json)

  function AdvisoryVuln(lib: Library, advisory: Json): Option<Vuln>
  {
    if !advisory.Dict? then None
    else
      match PickAdvisoryId(lib, advisory.entries)
      case None => None
      case Some(id) =>
        Some(Vuln(
          FirstTruthy(advisory.entries, ["module_name", "name"]),
          Get(advisory.entries, "severity"),
          id,
          FirstTruthy(advisory.entries, ["title", "advisory", "overview", "url"])))
  }

  // What one element of `via` adds to the advisory and title lists.
  function ViaAdvisories(item: Json): seq<Json>
  {
    match item
    case Dict(e) => [FirstTruthy(e, ["github_advisory_id", "url", "source", "title", "name"])]
    case Str(_) => [item]
    case _ => []
  }

  function ViaTitles(item: Json): seq<Json>
  {
    match item
    case Dict(e) => [FirstTruthy(e, ["title", "url", "advisory", "source"])]
    case Str(_) => [item]
    case _ => []
  }

  function ViaItems(via: Json): seq<Json>
  {
    match via
    case List(items) => items
    case Str(_) => [via]
    case _ => []
  }

  function Collect(f: Json -> seq<Json>, items: seq<Json>): seq<Json>
  {
    if items == [] then [] else Collect(f, items[..|items| - 1]) + f(items[|items| - 1])
  }

  // `"; ".join` of the truthy titles; a title that is not a string raises.
  function JoinTitles(titles: seq<Json>): Option<string>
  {
    if titles == [] then Some("")
    else
      match JoinTitles(titles[..|titles| - 1])
      case None => None
      case Some(before) =>
        var t := titles[|titles| - 1];
        if !Truthy(t) then Some(before)
        else if !t.Str? then None
        else Some(if before == "" then t.s else before + "; " + t.s)
  }

  // One vulnerability per truthy advisory of the package.
  function Yielded(name: string, severity: Json, advisories: seq<Json>, title: string): seq<Vuln>
  {
    if advisories == [] then []
    else
      var before, a := Yielded(name, severity, advisories[..|advisories| - 1], title), advisories[|advisories| - 1];
      if Truthy(a) then before + [Vuln(Str(name), severity, a, Str(title))] else before
  }

  function PackageVulns(name: string, vuln: Json): Option<seq<Vuln>>
  {
    if !vuln.Dict? then None
    else
      var items := ViaItems(GetOr(vuln.entries, "via", List([])));
      match JoinTitles(Collect(ViaTitles, items))
      case None => None
      case Some(title) => Some(Yielded(name, Get(vuln.entries, "severity"), Collect(ViaAdvisories, items), title))
  }

  function AdvisoryVulns(lib: Library, advisories: seq<(string, Json)>): Option<seq<Vuln>>
  {
    if advisories == [] then Some([])
    else
      match (AdvisoryVulns(lib, advisories[..|advisories| - 1]), AdvisoryVuln(lib, advisories[|advisories| - 1].1))
      case (Some(before), Some(v)) => Some(before + [v])
      case _ => None
  }

  function PackagesVulns(packages: seq<(string, Json)>): Option<seq<Vuln>>
  {
    if packages == [] then Some([])
    else
      match (PackagesVulns(packages[..|packages| - 1]),
        PackageVulns(packages[|packages| - 1].0, packages[|packages| - 1].1))
      case (Some(before), Some(vs)) => Some(before + vs)
      case _ => None
  }

  function Entries(j: Json): seq<(string, Json)>
  {
    if j.Dict? then j.entries else []
  }

  // Everything the generator yields, if it runs to its end.
  function AllVulns(lib: Library, data: Json): Option<seq<Vuln>>
  {
    if !data.Dict? then None
    else
      match (AdvisoryVulns(lib, Entries(Get(data.entries, "advisories"))),
        PackagesVulns(Entries(Get(data.entries, "vulnerabilities"))))
      case (Some(a), Some(p)) => Some(a + p)
      case _ => None
  }
}
