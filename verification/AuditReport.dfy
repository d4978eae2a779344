/**
 The vulnerabilities of an audit report, in its two layouts:
 tools/check_pnpm_audit_exceptions.py, pick_advisory_id and iter_vulns.  An absent
 or null string of the JSON is the empty string; objects are lists in their order.
 */
module AuditReport {
  import opened Wrappers
  import opened Sequences
  import opened Text
  import opened ExceptionList
  import opened AuditGate

  datatype Advisory = Advisory(
    moduleName: string, name: string, severity: string, githubId: string, url: string,
    cves: seq<string>, id: Option<string>, title: string, advisory: string, overview: string)

  /** An element of a `via` list: a name, an object, or something else. */
  datatype Item =
    | Named(text: string)
    | Details(githubId: string, url: string, source: string, title: string, name: string, advisory: string)
    | Other

  datatype Via = Items(items: seq<Item>) | Single(text: string) | Neither

  datatype Package = Package(name: string, severity: string, via: Via)

  /** `None` stands for a part that is missing or not an object. */
  datatype Audit = Audit(advisories: Option<seq<Advisory>>, vulnerabilities: Option<seq<Package>>)

  /** `a or b or ...`: the first string that is not empty. */
  function FirstOf(candidates: seq<string>): string {
    if candidates == [] then ""
    else if candidates[0] != "" then candidates[0]
    else FirstOf(candidates[1..])
  }

  function PickAdvisoryId(a: Advisory): string {
    FirstOf([a.githubId, a.url, if a.cves == [] then "" else a.cves[0],
             if a.id.Some? then a.id.value else "", a.title, a.advisory, a.overview])
  }

  function OfAdvisory(a: Advisory): Vuln {
    Vuln(FirstOf([a.moduleName, a.name]), a.severity, PickAdvisoryId(a),
         FirstOf([a.title, a.advisory, a.overview, a.url]))
  }

  function ItemId(item: Item): seq<string> {
    match item
    case Named(text) => [text]
    case Details(githubId, url, source, title, name, _) => [FirstOf([githubId, url, source, title, name])]
    case Other => []
  }

  function ItemTitle(item: Item): seq<string> {
    match item
    case Named(text) => [text]
    case Details(_, url, source, title, _, advisory) => [FirstOf([title, url, advisory, source])]
    case Other => []
  }

  function Ids(via: Via): seq<string> {
    match via
    case Items(items) => FlatMap(ItemId, items)
    case Single(text) => [text]
    case Neither => []
  }

  function Titles(via: Via): seq<string> {
    match via
    case Items(items) => FlatMap(ItemTitle, items)
    case Single(text) => [text]
    case Neither => []
  }

  predicate NotEmpty(s: string) { s != "" }

  function VulnOf(p: Package): string -> Vuln {
    (id: string) => Vuln(p.name, p.severity, id, Join(Filter(Titles(p.via), NotEmpty), "; "))
  }

  function OfPackage(p: Package): seq<Vuln> {
    Map(VulnOf(p), Filter(Ids(p.via), NotEmpty))
  }

  function Listed<T>(part: Option<seq<T>>): seq<T> {
    if part.Some? then part.value else []
  }

  function Yielded(audit: Audit): seq<Vuln> {
    Map(OfAdvisory, Listed(audit.advisories)) + FlatMap(OfPackage, Listed(audit.vulnerabilities))
  }

  // ----- the generator -----

  method CollectVia(via: Via) returns (ids: seq<string>, titles: seq<string>)
    ensures ids == Ids(via) && titles == Titles(via)
  {
    ids, titles := [], [];
    match via
    case Items(items) =>
      for k := 0 to |items|
        invariant ids == FlatMap(ItemId, items[..k]) && titles == FlatMap(ItemTitle, items[..k])
      {
        assert items[..k + 1][..k] == items[..k];
        match items[k]
        case Details(githubId, url, source, title, name, advisory) =>
          ids := ids + [FirstOf([githubId, url, source, title, name])];
          titles := titles + [FirstOf([title, url, advisory, source])];
        case Named(text) =>
          ids, titles := ids + [text], titles + [text];
        case Other =>
      }
      assert items[..|items|] == items;
    case Single(text) =>
      ids, titles := [text], [text];
    case Neither =>
  }

  method IterVulns(audit: Audit) returns (vulns: seq<Vuln>)
    ensures vulns == Yielded(audit)
  {
    var first := YieldAdvisories(Listed(audit.advisories));
    var second := YieldPackages(Listed(audit.vulnerabilities));
    vulns := first + second;
  }

  method YieldPackages(packages: seq<Package>) returns (vulns: seq<Vuln>)
    ensures vulns == FlatMap(OfPackage, packages)
  {
    vulns := [];
    for k := 0 to |packages|
      invariant vulns == FlatMap(OfPackage, packages[..k])
    {
      FlatMapOneMore(OfPackage, packages, k);
      var more := YieldPackage(packages[k]);
      vulns := vulns + more;
    }
    assert packages[..|packages|] == packages;
  }

  method YieldAdvisories(advisories: seq<Advisory>) returns (vulns: seq<Vuln>)
    ensures vulns == Map(OfAdvisory, advisories)
  {
    vulns := [];
    for k := 0 to |advisories|
      invariant vulns == Map(OfAdvisory, advisories[..k])
    {
      MapOneMore(OfAdvisory, advisories, k);
      vulns := vulns + [OfAdvisory(advisories[k])];
    }
    assert advisories[..|advisories|] == advisories;
  }

  method YieldPackage(p: Package) returns (vulns: seq<Vuln>)
    ensures vulns == OfPackage(p)
  {
    var ids, titles := CollectVia(p.via);
    var title := Join(Filter(titles, NotEmpty), "; ");
    var named := Filter(ids, NotEmpty);
    vulns := [];
    for k := 0 to |named|
      invariant vulns == Map(VulnOf(p), named[..k])
    {
      vulns := vulns + [Vuln(p.name, p.severity, named[k], title)];
    }
    assert named[..|named|] == named;
  }

  // ----- which field counts -----

  lemma FirstCounts(candidates: seq<string>, i: nat)
    requires i < |candidates| && candidates[i] != "" && forall j :: 0 <= j < i ==> candidates[j] == ""
    ensures FirstOf(candidates) == candidates[i]
  {
    if i > 0 {
      FirstCounts(candidates[1..], i - 1);
    }
  }

  lemma NoneCounts(candidates: seq<string>)
    requires forall j :: 0 <= j < |candidates| ==> candidates[j] == ""
    ensures FirstOf(candidates) == ""
  {
    if candidates != [] {
      NoneCounts(candidates[1..]);
    }
  }

  /** The identifier of an advisory: its GitHub id, else its url, its first CVE, its number, its title, its advisory, its overview. */
  lemma AdvisoryIdentified(a: Advisory)
    ensures var id, cve, number := PickAdvisoryId(a), if a.cves == [] then "" else a.cves[0], if a.id.Some? then a.id.value else "";
            && (a.githubId != "" ==> id == a.githubId)
            && (a.githubId == "" && a.url != "" ==> id == a.url)
            && (a.githubId == a.url == "" && cve != "" ==> id == cve)
            && (a.githubId == a.url == cve == "" && number != "" ==> id == number)
            && (a.githubId == a.url == cve == number == "" && a.title != "" ==> id == a.title)
            && (a.githubId == a.url == cve == number == a.title == "" && a.advisory != "" ==> id == a.advisory)
            && (a.githubId == a.url == cve == number == a.title == a.advisory == "" ==> id == a.overview)
  {
    var cve, number := if a.cves == [] then "" else a.cves[0], if a.id.Some? then a.id.value else "";
    var candidates := [a.githubId, a.url, cve, number, a.title, a.advisory, a.overview];
    var k := if a.githubId != "" then 0 else if a.url != "" then 1 else if cve != "" then 2 else if number != "" then 3
             else if a.title != "" then 4 else if a.advisory != "" then 5 else 6;
    if candidates[k] != "" {
      FirstCounts(candidates, k);
    } else {
      NoneCounts(candidates);
    }
  }

  lemma PairCounts(first: string, second: string)
    ensures FirstOf([first, second]) == if first != "" then first else second
  {
    if first != "" {
      FirstCounts([first, second], 0);
    } else if second != "" {
      FirstCounts([first, second], 1);
    } else {
      NoneCounts([first, second]);
    }
  }

  /** What an advisory yields: the module's name, or else its name, with its own severity and identifier. */
  lemma AdvisoryYields(a: Advisory)
    ensures var v := OfAdvisory(a);
            && v.name == (if a.moduleName != "" then a.moduleName else a.name)
            && v.severity == a.severity && v.advisory == PickAdvisoryId(a)
  {
    PairCounts(a.moduleName, a.name);
  }

  /** The identifier of an entry of a package: its GitHub id, else its url, its source, its title, its name; a text is its own. */
  lemma ItemIdentified(item: Item)
    ensures item.Named? ==> ItemId(item) == [item.text]
    ensures item.Other? ==> ItemId(item) == []
    ensures item.Details? ==>
              && |ItemId(item)| == 1
              && (item.githubId != "" ==> ItemId(item)[0] == item.githubId)
              && (item.githubId == "" && item.url != "" ==> ItemId(item)[0] == item.url)
              && (item.githubId == item.url == "" && item.source != "" ==> ItemId(item)[0] == item.source)
              && (item.githubId == item.url == item.source == "" && item.title != "" ==> ItemId(item)[0] == item.title)
              && (item.githubId == item.url == item.source == item.title == "" ==> ItemId(item)[0] == item.name)
  {
    if item.Details? {
      var candidates := [item.githubId, item.url, item.source, item.title, item.name];
      var k := if item.githubId != "" then 0 else if item.url != "" then 1 else if item.source != "" then 2
               else if item.title != "" then 3 else 4;
      if candidates[k] != "" {
        FirstCounts(candidates, k);
      } else {
        NoneCounts(candidates);
      }
    }
  }

  /** What a package yields: its name and severity, once for each of its identifiers. */
  lemma PackageYields(p: Package, v: Vuln)
    ensures v in OfPackage(p) ==> v.name == p.name && v.severity == p.severity && v.advisory != "" && v.advisory in Ids(p.via)
    ensures forall id :: id in Ids(p.via) && id != "" ==> exists u :: u in OfPackage(p) && u.advisory == id
  {
    var named := Filter(Ids(p.via), NotEmpty);
    FilterMembers(Ids(p.via), NotEmpty);
    forall id | id in Ids(p.via) && id != "" ensures exists u :: u in OfPackage(p) && u.advisory == id {
      assert id in named;
      var i :| 0 <= i < |named| && named[i] == id;
      assert OfPackage(p)[i].advisory == id;
    }
  }

  /** The title of an advisory: its own, else its advisory, its overview, its url. */
  lemma AdvisoryTitled(a: Advisory)
    ensures var title := OfAdvisory(a).title;
            && (a.title != "" ==> title == a.title)
            && (a.title == "" && a.advisory != "" ==> title == a.advisory)
            && (a.title == a.advisory == "" && a.overview != "" ==> title == a.overview)
            && (a.title == a.advisory == a.overview == "" ==> title == a.url)
  {
    var candidates := [a.title, a.advisory, a.overview, a.url];
    var k := if a.title != "" then 0 else if a.advisory != "" then 1 else if a.overview != "" then 2 else 3;
    if candidates[k] != "" {
      FirstCounts(candidates, k);
    } else {
      NoneCounts(candidates);
    }
  }

  /** The title of an entry of a package: its own, else its url, its advisory, its source; a text is its own. */
  lemma ItemTitled(item: Item)
    ensures item.Named? ==> ItemTitle(item) == [item.text]
    ensures item.Other? ==> ItemTitle(item) == []
    ensures item.Details? ==>
              && |ItemTitle(item)| == 1
              && (item.title != "" ==> ItemTitle(item)[0] == item.title)
              && (item.title == "" && item.url != "" ==> ItemTitle(item)[0] == item.url)
              && (item.title == item.url == "" && item.advisory != "" ==> ItemTitle(item)[0] == item.advisory)
              && (item.title == item.url == item.advisory == "" ==> ItemTitle(item)[0] == item.source)
  {
    if item.Details? {
      var candidates := [item.title, item.url, item.advisory, item.source];
      var k := if item.title != "" then 0 else if item.url != "" then 1 else if item.advisory != "" then 2 else 3;
      if candidates[k] != "" {
        FirstCounts(candidates, k);
      } else {
        NoneCounts(candidates);
      }
    }
  }

  /** Every vulnerability of a package carries the titles of all its entries that have one, a semicolon and a space between them. */
  lemma PackageTitled(p: Package, v: Vuln, first: string, rest: seq<string>)
    requires v in OfPackage(p)
    ensures (forall t | t in Titles(p.via) :: t == "") ==> v.title == ""
    ensures Filter(Titles(p.via), NotEmpty) == [first] + rest ==>
              v.title == if rest == [] then first else first + "; " + Join(rest, "; ")
  {
    JoinFirst(first, rest, "; ");
    FilterMembers(Titles(p.via), NotEmpty);
    var kept := Filter(Titles(p.via), NotEmpty);
    assert kept != [] ==> kept[0] in Titles(p.via);
  }

  // ----- what reaches the gate -----

  /** No way in which the package is affected has an identifier. */
  ghost predicate Anonymous(p: Package) {
    forall id | id in Ids(p.via) :: id == ""
  }

  lemma AnonymousYieldsNothing(p: Package)
    ensures OfPackage(p) == [] <==> Anonymous(p)
  {
    var named := Filter(Ids(p.via), NotEmpty);
    FilterMembers(Ids(p.via), NotEmpty);
    if named == [] {
      forall id | id in Ids(p.via) ensures id == "" {
        assert NotEmpty(id) ==> id in named;
      }
    } else {
      assert named[0] in Ids(p.via);
    }
  }

  /**
   In the `vulnerabilities` layout a package without any identifier never reaches
   the gate, however severe it is: the report yields what it yields without it.
   */
  lemma AnonymousPackageIgnored(audit: Audit, before: seq<Package>, p: Package, after: seq<Package>)
    requires audit.vulnerabilities == Some(before + [p] + after) && Anonymous(p)
    ensures Yielded(audit) == Yielded(audit.(vulnerabilities := Some(before + after)))
  {
    AnonymousYieldsNothing(p);
    FlatMapDrop(OfPackage, before, p, after);
  }

  /** A critical package without identifiers passes a gate without exceptions. */
  lemma AnonymousPackagePasses(today: int, tools: Tools)
    ensures Passes([], Yielded(Audit(None, Some([Package("left-pad", "critical", Items([]))]))), today, tools)
  {
    var p := Package("left-pad", "critical", Items([]));
    var none: seq<Package> := [];
    assert none + [p] + none == [p] && none + none == none;
    AnonymousPackageIgnored(Audit(None, Some([p])), none, p, none);
    assert Yielded(Audit(None, Some([]))) == [];
  }

  /** In the `advisories` layout the gate fails for such an entry. */
  lemma AnonymousAdvisoryFails(audit: Audit, k: nat, exceptions: seq<Record>, today: int, tools: Tools)
    requires audit.advisories.Some? && k < |audit.advisories.value|
    requires var v := OfAdvisory(audit.advisories.value[k]);
             v.name != "" && Lowered(v.severity, tools) in {"high", "critical"} && Lowered(v.advisory, tools) == ""
    ensures !Passes(exceptions, Yielded(audit), today, tools)
  {
    var vulns := Yielded(audit);
    assert vulns[k] == OfAdvisory(audit.advisories.value[k]);
    assert NeedOf(tools)(vulns[k]) == Unidentified;
    assert !Clear(Map(GrantOf(tools), exceptions), Map(NeedOf(tools), vulns), k, today);
  }
}
