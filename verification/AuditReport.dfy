/** Reading the audit report: iter_vulns, and the whole program from report and list to exit code. */
module AuditReport {
  import opened Prelude
  import opened AuditParser
  import opened AuditGate

  datatype Advisory = Advisory(
    moduleName: Scalar, name: Scalar, severity: string, ghsa: Scalar, url: Scalar, cves: seq<Scalar>, id: Scalar,
    title: Scalar, advisory: Scalar, overview: Scalar)

  /** An element of a via list: a dictionary, a string, or something else. */
  datatype Item =
    | Dict(ghsa: Scalar, url: Scalar, source: Scalar, title: Scalar, name: Scalar, advisory: Scalar)
    | Plain(text: string)
    | Opaque

  datatype Via = ViaList(items: seq<Item>) | ViaText(text: string) | ViaOther

  datatype Package = Package(name: string, severity: string, via: Via)

  /** The two sections of the report, None when absent or not a dictionary. */
  datatype Audit = Audit(advisories: Option<seq<Advisory>>, vulnerabilities: Option<seq<Package>>)

  /** Python's `or`. */
  function Or(a: Scalar, b: Scalar): Scalar {
    if Truthy(a) then a else b
  }

  function PickAdvisory(a: Advisory): Scalar {
    Or(a.ghsa, Or(a.url, Or(if a.cves != [] then a.cves[0] else Nil,
      Or(if a.id.Nil? then Nil else Text(StringOf(a.id)), Or(a.title, Or(a.advisory, a.overview))))))
  }

  /** The identifiers of an advisory, the most stable first. */
  function Candidates(a: Advisory): seq<Scalar> {
    [a.ghsa, a.url, if a.cves != [] then a.cves[0] else Nil, if a.id.Nil? then Nil else Text(StringOf(a.id)),
     a.title, a.advisory, a.overview]
  }

  /** The chosen identifier is the first usable candidate; when there is none, it is unusable too. */
  lemma PickExact(a: Advisory)
    ensures Truthy(PickAdvisory(a)) <==> exists k :: 0 <= k < 7 && Truthy(Candidates(a)[k])
    ensures var c := Candidates(a);
      forall k :: 0 <= k < 7 && Truthy(c[k]) && (forall j :: 0 <= j < k ==> !Truthy(c[j])) ==> PickAdvisory(a) == c[k]
  {
    var c := Candidates(a);
    assert c[0] == a.ghsa && c[1] == a.url && c[4] == a.title && c[5] == a.advisory && c[6] == a.overview;
    assert c[2] == (if a.cves != [] then a.cves[0] else Nil);
    assert c[3] == if a.id.Nil? then Nil else Text(StringOf(a.id));
  }

  function FromAdvisory(a: Advisory): Vuln {
    Vuln(Or(a.moduleName, a.name), a.severity, PickAdvisory(a))
  }

  function ItemIds(item: Item): seq<Scalar> {
    match item
    case Dict(ghsa, url, source, title, name, _) => [Or(ghsa, Or(url, Or(source, Or(title, name))))]
    case Plain(s) => [Text(s)]
    case Opaque => []
  }

  /** The advisory identifiers a package names, usable or not. */
  function ViaIds(via: Via): seq<Scalar> {
    match via
    case ViaList(items) => Gathered(ItemIds, items)
    case ViaText(s) => [Text(s)]
    case ViaOther => []
  }

  function ItemTitles(item: Item): seq<Scalar> {
    match item
    case Dict(_, url, source, title, _, advisory) => [Or(title, Or(url, Or(advisory, source)))]
    case Plain(s) => [Text(s)]
    case Opaque => []
  }

  function ViaTitles(via: Via): seq<Scalar> {
    match via
    case ViaList(items) => Gathered(ItemTitles, items)
    case ViaText(s) => [Text(s)]
    case ViaOther => []
  }

  /** Joining the usable titles raises a TypeError unless all of them are strings. */
  predicate Joinable(titles: seq<Scalar>) {
    forall t | t in titles && Truthy(t) :: t.Text?
  }

  predicate PackageJoinable(p: Package) {
    Joinable(ViaTitles(p.via))
  }

  predicate AllJoinable(ps: seq<Package>) {
    forall i :: 0 <= i < |ps| ==> PackageJoinable(ps[i])
  }

  function VulnsFor(p: Package, ids: seq<Scalar>): seq<Vuln> {
    seq(|ids|, k requires 0 <= k < |ids| => Vuln(Text(p.name), p.severity, ids[k]))
  }

  /** One vulnerability per usable identifier, in order. */
  function FromPackage(p: Package): seq<Vuln> {
    VulnsFor(p, Filter(ViaIds(p.via), Truthy))
  }

  function FromPackages(ps: seq<Package>): seq<Vuln> {
    Gathered(FromPackage, ps)
  }

  function FromAdvisories(advisories: seq<Advisory>): seq<Vuln> {
    seq(|advisories|, k requires 0 <= k < |advisories| => FromAdvisory(advisories[k]))
  }

  function Yields(audit: Audit): seq<Vuln> {
    (if audit.advisories.Some? then FromAdvisories(audit.advisories.value) else [])
    + (if audit.vulnerabilities.Some? then FromPackages(audit.vulnerabilities.value) else [])
  }

  method CollectIds(via: Via) returns (advisories: seq<Scalar>, titles: seq<Scalar>)
    ensures advisories == ViaIds(via) && titles == ViaTitles(via)
  {
    advisories, titles := [], [];
    match via
    case ViaList(items) =>
      for i := 0 to |items|
        invariant advisories == Gathered(ItemIds, items[..i]) && titles == Gathered(ItemTitles, items[..i])
      {
        assert items[..i + 1][..i] == items[..i];
        match items[i]
        case Dict(ghsa, url, source, title, name, advisory) =>
          advisories := advisories + [Or(ghsa, Or(url, Or(source, Or(title, name))))];
          titles := titles + [Or(title, Or(url, Or(advisory, source)))];
        case Plain(s) =>
          advisories := advisories + [Text(s)];
          titles := titles + [Text(s)];
        case Opaque =>
      }
      assert items[..|items|] == items;
    case ViaText(s) =>
      advisories, titles := [Text(s)], [Text(s)];
    case ViaOther =>
  }

  /** One round of the loop over the vulnerabilities section; ok is false when joining the titles raises. */
  method YieldPackage(p: Package) returns (ok: bool, found: seq<Vuln>)
    ensures ok == PackageJoinable(p)
    ensures ok ==> found == FromPackage(p)
  {
    var ids, titles := CollectIds(p.via);
    ok, found := Joinable(titles), [];
    if !ok {
      return;
    }
    for j := 0 to |ids|
      invariant found == VulnsFor(p, Filter(ids[..j], Truthy))
    {
      assert ids[..j + 1][..j] == ids[..j];
      if Truthy(ids[j]) {
        found := found + [Vuln(Text(p.name), p.severity, ids[j])];
      }
    }
    assert ids[..|ids|] == ids;
  }

  datatype GateError = BadList | BadTitle

  function PackagesOf(audit: Audit): seq<Package> {
    if audit.vulnerabilities.Some? then audit.vulnerabilities.value else []
  }

  method IterAdvisories(advisories: seq<Advisory>) returns (yielded: seq<Vuln>)
    ensures yielded == FromAdvisories(advisories)
  {
    yielded := [];
    for i := 0 to |advisories|
      invariant yielded == FromAdvisories(advisories[..i])
    {
      var a := advisories[i];
      yielded := yielded + [Vuln(Or(a.moduleName, a.name), a.severity, PickAdvisory(a))];
    }
    assert advisories[..|advisories|] == advisories;
  }

  method IterPackages(packages: seq<Package>) returns (ok: bool, yielded: seq<Vuln>)
    ensures ok == AllJoinable(packages)
    ensures ok ==> yielded == FromPackages(packages)
  {
    yielded := [];
    for i := 0 to |packages|
      invariant yielded == FromPackages(packages[..i])
      invariant forall k :: 0 <= k < i ==> PackageJoinable(packages[k])
    {
      GatheredStep(FromPackage, packages, i);
      var joined, found := YieldPackage(packages[i]);
      if !joined {
        return false, [];
      }
      yielded := yielded + found;
    }
    assert packages[..|packages|] == packages;
    ok := true;
  }

  /** iter_vulns: the advisories section, then the vulnerabilities section. */
  method IterVulns(audit: Audit) returns (yielded: Result<seq<Vuln>, GateError>)
    ensures yielded == if AllJoinable(PackagesOf(audit)) then Ok(Yields(audit)) else Err(BadTitle)
  {
    var first: seq<Vuln> := [];
    if audit.advisories.Some? {
      first := IterAdvisories(audit.advisories.value);
    }
    if audit.vulnerabilities.None? {
      return Ok(first + []);
    }
    var ok, second := IterPackages(audit.vulnerabilities.value);
    return if ok then Ok(first + second) else Err(BadTitle);
  }

  /** The outcome of main once the exception list has been read. */
  function Gate(audit: Audit, recs: seq<Rec>, today: int, py: Python): Result<int, GateError> {
    if AllJoinable(PackagesOf(audit)) then Ok(ExitCode(recs, Yields(audit), today, py)) else Err(BadTitle)
  }

  /** main: a list that does not parse raises, and so does a title that is not text. */
  method RunGate(audit: Audit, lines: seq<string>, today: int, py: Python) returns (r: Result<int, GateError>)
    ensures r == match Parse(lines)
      case Err(_) => Err(BadList)
      case Ok(recs) => Gate(audit, recs, today, py)
  {
    var exceptions := ParseExceptions(lines);
    if exceptions.Err? {
      return Err(BadList);
    }
    var vulns := IterVulns(audit);
    if vulns.Err? {
      return Err(vulns.error);
    }
    var code, errors := Validate(exceptions.value, vulns.value, today, py);
    return Ok(code);
  }

  // ----- what the gate does not see -----------------------------------------------------------

  /** A package of the vulnerabilities section is reported once per usable via identifier, and only so. */
  lemma {:induction false} PackagesReported(ps: seq<Package>, v: Vuln)
    ensures v in FromPackages(ps) <==>
      exists p :: p in ps && v.name == Text(p.name) && v.severity == p.severity && v.advisory in ViaIds(p.via)
          && Truthy(v.advisory)
  {
    if ps == [] {
    } else {
      var n := |ps| - 1;
      PackagesReported(ps[..n], v);
      assert ps == ps[..n] + [ps[n]];
      var ids := Filter(ViaIds(ps[n].via), Truthy);
      FilterMembers(ViaIds(ps[n].via), Truthy);
      if v.name == Text(ps[n].name) && v.severity == ps[n].severity && v.advisory in ids {
        var k :| 0 <= k < |ids| && ids[k] == v.advisory;
        assert VulnsFor(ps[n], ids)[k] == v;
      }
    }
  }

  /**
   * A package whose via names no usable identifier is never reported, whatever its severity: as long as
   * its titles can be joined, the outcome is that of the report without it.
   */
  lemma SilentPackage(audit: Audit, i: nat, recs: seq<Rec>, today: int, py: Python)
    requires i < |PackagesOf(audit)|
    requires forall id | id in ViaIds(PackagesOf(audit)[i].via) :: !Truthy(id)
    ensures var ps := PackagesOf(audit);
      Joinable(ViaTitles(ps[i].via)) ==>
        Gate(audit, recs, today, py) == Gate(audit.(vulnerabilities := Some(ps[..i] + ps[i + 1..])), recs, today, py)
  {
    var ps := PackagesOf(audit);
    var fewer := ps[..i] + ps[i + 1..];
    FilterNone(ViaIds(ps[i].via), Truthy);
    GatheredWithout(FromPackage, ps, i);
    if Joinable(ViaTitles(ps[i].via)) && AllJoinable(fewer) {
      forall k | 0 <= k < |ps| ensures PackageJoinable(ps[k]) {
        assert k < i ==> fewer[k] == ps[k];
        assert k > i ==> fewer[k - 1] == ps[k];
      }
    }
  }
}
