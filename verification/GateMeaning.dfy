/**
 The gate's verdict said of the exception records and the yielded vulnerabilities as
 they are written, field by field.
 */
module GateMeaning {
  import opened Wrappers
  import opened Sequences
  import opened Text
  import opened ExceptionList
  import opened AuditGate

  function Required(): set<string> { {"package", "advisory", "severity", "mitigation", "expires_on"} }

  /** Surrounding space and case do not count. */
  function Plain(s: string, tools: Tools): string { tools.lower(Strip(s)) }

  ghost predicate ValidRecord(r: Record, tools: Tools) {
    && (forall f | f in Required() :: f in r && r[f] != "")
    && tools.parseDate(r["expires_on"]).Some? && Strip(r["package"]) != "" && Plain(r["advisory"], tools) != ""
  }

  /** The record is about this package and advisory. */
  ghost predicate About(r: Record, package: string, advisory: string, tools: Tools) {
    && "package" in r && "advisory" in r
    && Strip(r["package"]) == Strip(package) && Plain(r["advisory"], tools) == Plain(advisory, tools)
  }

  predicate Severe(v: Vuln, tools: Tools) {
    (Plain(v.severity, tools) == "high" || Plain(v.severity, tools) == "critical") && v.name != ""
  }

  predicate SameTarget(v: Vuln, w: Vuln, tools: Tools) {
    Strip(v.name) == Strip(w.name) && Plain(v.advisory, tools) == Plain(w.advisory, tools)
  }

  ghost predicate InForce(r: Record, v: Vuln, today: int, tools: Tools) {
    ValidRecord(r, tools) && About(r, v.name, v.advisory, tools) && tools.parseDate(r["expires_on"]).value >= today
  }

  ghost predicate FirstOfTarget(vulns: seq<Vuln>, i: nat, tools: Tools)
    requires i < |vulns|
  {
    forall j :: 0 <= j < i && Severe(vulns[j], tools) ==> !SameTarget(vulns[j], vulns[i], tools)
  }

  /** A valid record names no severity, or that of the vulnerability. */
  ghost predicate Agrees(r: Record, v: Vuln, tools: Tools) {
    ValidRecord(r, tools) && About(r, v.name, v.advisory, tools) ==>
      Plain(r["severity"], tools) == "" || Plain(r["severity"], tools) == Plain(v.severity, tools)
  }

  ghost predicate Accounted(exceptions: seq<Record>, vulns: seq<Vuln>, i: nat, today: int, tools: Tools)
    requires i < |vulns|
  {
    Severe(vulns[i], tools) ==>
      && Plain(vulns[i].advisory, tools) != ""
      && (exists r :: r in exceptions && InForce(r, vulns[i], today, tools))
      && (FirstOfTarget(vulns, i, tools) ==> forall r | r in exceptions :: Agrees(r, vulns[i], tools))
  }

  ghost predicate ListInOrder(exceptions: seq<Record>, tools: Tools) {
    && (forall i :: 0 <= i < |exceptions| ==> ValidRecord(exceptions[i], tools))
    && (forall i, j :: 0 <= i < j < |exceptions| && ValidRecord(exceptions[j], tools) ==>
          !About(exceptions[i], exceptions[j]["package"], exceptions[j]["advisory"], tools))
  }

  ghost predicate Accepts(exceptions: seq<Record>, vulns: seq<Vuln>, today: int, tools: Tools) {
    && ListInOrder(exceptions, tools)
    && forall i :: 0 <= i < |vulns| ==> Accounted(exceptions, vulns, i, today, tools)
  }

  // ----- one record, one vulnerability -----

  /** `g` is what the record grants. */
  ghost predicate GrantFor(g: Grant, r: Record, tools: Tools) {
    && (g.Grant? <==> ValidRecord(r, tools))
    && (g.Grant? ==> g == Grant(Key(Strip(r["package"]), Plain(r["advisory"], tools)), Plain(r["severity"], tools), tools.parseDate(r["expires_on"]).value))
  }

  /** `n` is what the vulnerability needs. */
  predicate NeedFor(n: Need, v: Vuln, tools: Tools) {
    && (n == Minor <==> !Severe(v, tools))
    && (n == Unidentified <==> Severe(v, tools) && Plain(v.advisory, tools) == "")
    && (n.Need? ==> n == Need(Key(Strip(v.name), Plain(v.advisory, tools)), Plain(v.severity, tools)))
  }

  lemma CompleteRecord(r: Record)
    ensures Complete(r) <==> forall f | f in Required() :: f in r && r[f] != ""
  {
    if forall f | f in Required() :: f in r && r[f] != "" {
      assert "package" in Required() && "advisory" in Required() && "severity" in Required()
          && "mitigation" in Required() && "expires_on" in Required();
    }
  }

  lemma RecordGrants(r: Record, tools: Tools)
    ensures GrantFor(GrantOf(tools)(r), r, tools)
  {
    CompleteRecord(r);
  }

  lemma VulnNeeds(v: Vuln, tools: Tools)
    ensures NeedFor(NeedOf(tools)(v), v, tools)
  {
  }

  // ----- lists -----

  ghost predicate AreGrants(grants: seq<Grant>, exceptions: seq<Record>, tools: Tools) {
    |grants| == |exceptions| && forall i :: 0 <= i < |grants| ==> GrantFor(grants[i], exceptions[i], tools)
  }

  ghost predicate AreNeeds(needs: seq<Need>, vulns: seq<Vuln>, tools: Tools) {
    |needs| == |vulns| && forall i :: 0 <= i < |needs| ==> NeedFor(needs[i], vulns[i], tools)
  }

  lemma SameKeys(g: Grant, h: Grant, r: Record, q: Record, tools: Tools)
    requires GrantFor(g, r, tools) && GrantFor(h, q, tools) && g.Grant? && h.Grant?
    ensures g.key == h.key <==> About(r, q["package"], q["advisory"], tools)
  {
    assert "package" in Required() && "advisory" in Required();
  }

  lemma OrderMeaning(grants: seq<Grant>, exceptions: seq<Record>, tools: Tools)
    requires AreGrants(grants, exceptions, tools)
    ensures GrantsInOrder(grants) <==> ListInOrder(exceptions, tools)
  {
    forall i, j | 0 <= i < |grants| && 0 <= j < |grants| && grants[i].Grant? && grants[j].Grant?
      ensures grants[i].key == grants[j].key <==> About(exceptions[i], exceptions[j]["package"], exceptions[j]["advisory"], tools)
    {
      SameKeys(grants[i], grants[j], exceptions[i], exceptions[j], tools);
    }
    forall i | 0 <= i < |grants| ensures grants[i].Grant? <==> ValidRecord(exceptions[i], tools) {
      assert GrantFor(grants[i], exceptions[i], tools);
    }
  }

  /** A grant for a need, and the record for the vulnerability. */
  lemma KeyMeaning(g: Grant, r: Record, n: Need, v: Vuln, tools: Tools)
    requires GrantFor(g, r, tools) && NeedFor(n, v, tools) && n.Need?
    ensures g.Grant? && g.key == n.key <==> ValidRecord(r, tools) && About(r, v.name, v.advisory, tools)
  {
    assert "package" in Required() && "advisory" in Required();
  }

  lemma CoverMeaning(grants: seq<Grant>, exceptions: seq<Record>, n: Need, v: Vuln, today: int, tools: Tools)
    requires AreGrants(grants, exceptions, tools) && NeedFor(n, v, tools) && n.Need?
    ensures Covered(grants, n.key, today) <==> exists r :: r in exceptions && InForce(r, v, today, tools)
  {
    if Covered(grants, n.key, today) {
      var g: Grant :| g in grants && g.Grant? && g.key == n.key && g.expiresOn >= today;
      var i :| 0 <= i < |grants| && grants[i] == g;
      KeyMeaning(g, exceptions[i], n, v, tools);
      assert exceptions[i] in exceptions && InForce(exceptions[i], v, today, tools);
    }
    if r :| r in exceptions && InForce(r, v, today, tools) {
      var i :| 0 <= i < |exceptions| && exceptions[i] == r;
      assert GrantFor(grants[i], exceptions[i], tools);
      KeyMeaning(grants[i], r, n, v, tools);
      assert grants[i] in grants;
    }
  }

  lemma AgreeMeaning(grants: seq<Grant>, exceptions: seq<Record>, n: Need, v: Vuln, tools: Tools)
    requires AreGrants(grants, exceptions, tools) && NeedFor(n, v, tools) && n.Need?
    ensures SeverityAgrees(grants, n.key, n.severity) <==> forall r | r in exceptions :: Agrees(r, v, tools)
  {
    forall i | 0 <= i < |grants|
      ensures grants[i].Grant? && grants[i].key == n.key ==>
                (grants[i].severity == "" || grants[i].severity == n.severity <==> Agrees(exceptions[i], v, tools))
      ensures !(grants[i].Grant? && grants[i].key == n.key) ==> Agrees(exceptions[i], v, tools)
    {
      assert GrantFor(grants[i], exceptions[i], tools);
      KeyMeaning(grants[i], exceptions[i], n, v, tools);
    }
    if SeverityAgrees(grants, n.key, n.severity) {
      forall r | r in exceptions ensures Agrees(r, v, tools) {
        var i :| 0 <= i < |exceptions| && exceptions[i] == r;
        assert grants[i] in grants;
      }
    }
    if forall r | r in exceptions :: Agrees(r, v, tools) {
      forall g: Grant | g in grants && g.Grant? && g.key == n.key ensures g.severity == "" || g.severity == n.severity {
        var i :| 0 <= i < |grants| && grants[i] == g;
        assert exceptions[i] in exceptions;
      }
    }
  }

  lemma FirstMeaning(needs: seq<Need>, vulns: seq<Vuln>, i: nat, tools: Tools)
    requires AreNeeds(needs, vulns, tools) && i < |needs| && needs[i].Need?
    ensures IsFirst(needs, i) <==> FirstOfTarget(vulns, i, tools)
  {
    forall j | 0 <= j < i ensures NeedsKey(needs, j, needs[i].key) <==> Severe(vulns[j], tools) && SameTarget(vulns[j], vulns[i], tools) {
      assert NeedFor(needs[j], vulns[j], tools) && NeedFor(needs[i], vulns[i], tools);
    }
  }

  lemma ClearMeaning(grants: seq<Grant>, exceptions: seq<Record>, needs: seq<Need>, vulns: seq<Vuln>, i: nat, today: int, tools: Tools)
    requires AreGrants(grants, exceptions, tools) && AreNeeds(needs, vulns, tools) && i < |needs|
    ensures Clear(grants, needs, i, today) <==> Accounted(exceptions, vulns, i, today, tools)
  {
    assert NeedFor(needs[i], vulns[i], tools);
    if needs[i].Need? {
      CoverMeaning(grants, exceptions, needs[i], vulns[i], today, tools);
      AgreeMeaning(grants, exceptions, needs[i], vulns[i], tools);
      FirstMeaning(needs, vulns, i, tools);
    }
  }

  /** The gate passes exactly when the records, as written, account for the vulnerabilities, as yielded. */
  lemma PassMeaning(exceptions: seq<Record>, vulns: seq<Vuln>, today: int, tools: Tools)
    ensures Passes(exceptions, vulns, today, tools) <==> Accepts(exceptions, vulns, today, tools)
  {
    var grants, needs := Map(GrantOf(tools), exceptions), Map(NeedOf(tools), vulns);
    forall i | 0 <= i < |exceptions| ensures GrantFor(grants[i], exceptions[i], tools) {
      RecordGrants(exceptions[i], tools);
    }
    forall i | 0 <= i < |vulns| ensures NeedFor(needs[i], vulns[i], tools) {
      VulnNeeds(vulns[i], tools);
    }
    OrderMeaning(grants, exceptions, tools);
    forall i | 0 <= i < |needs| ensures Clear(grants, needs, i, today) <==> Accounted(exceptions, vulns, i, today, tools) {
      ClearMeaning(grants, exceptions, needs, vulns, i, today, tools);
    }
  }

  lemma AboutThrough(r: Record, q: Record, v: Vuln, tools: Tools)
    requires About(q, v.name, v.advisory, tools)
    ensures About(r, v.name, v.advisory, tools) <==> About(r, q["package"], q["advisory"], tools)
  {
  }

  lemma NotTwice(exceptions: seq<Record>, i: nat, k: nat, v: Vuln, tools: Tools)
    requires ListInOrder(exceptions, tools) && i < k < |exceptions|
    ensures About(exceptions[k], v.name, v.advisory, tools) ==> !About(exceptions[i], v.name, v.advisory, tools)
  {
    if About(exceptions[k], v.name, v.advisory, tools) {
      AboutThrough(exceptions[i], exceptions[k], v, tools);
    }
  }

  /** A valid, unexpired record passes for a vulnerability that it equals but for case and surrounding space. */
  lemma MatchingRecordPasses(exceptions: seq<Record>, r: Record, v: Vuln, today: int, tools: Tools)
    requires ListInOrder(exceptions, tools) && r in exceptions
    requires About(r, v.name, v.advisory, tools) && Plain(r["severity"], tools) == Plain(v.severity, tools)
    requires tools.parseDate(r["expires_on"]).value >= today
    ensures Passes(exceptions, [v], today, tools)
  {
    var k :| 0 <= k < |exceptions| && exceptions[k] == r;
    assert ValidRecord(r, tools);
    assert InForce(r, v, today, tools);
    forall q | q in exceptions ensures Agrees(q, v, tools) {
      var i :| 0 <= i < |exceptions| && exceptions[i] == q;
      if i < k {
        NotTwice(exceptions, i, k, v, tools);
      } else if k < i {
        NotTwice(exceptions, k, i, v, tools);
      }
    }
    PassMeaning(exceptions, [v], today, tools);
  }

  /** Another spelling of a record: fields with the same text but for case and surrounding space. */
  ghost predicate Respelled(r: Record, q: Record, tools: Tools) {
    && r.Keys == q.Keys && (forall f | f in Required() && f in r :: r[f] != "" <==> q[f] != "")
    && ("package" in r ==> Strip(r["package"]) == Strip(q["package"]))
    && ("advisory" in r ==> Plain(r["advisory"], tools) == Plain(q["advisory"], tools))
    && ("severity" in r ==> Plain(r["severity"], tools) == Plain(q["severity"], tools))
    && ("expires_on" in r ==> tools.parseDate(r["expires_on"]) == tools.parseDate(q["expires_on"]))
  }

  lemma RespelledGrants(g: Grant, r: Record, q: Record, tools: Tools)
    requires Respelled(r, q, tools) && GrantFor(g, r, tools)
    ensures GrantFor(g, q, tools)
  {
    assert "package" in Required() && "advisory" in Required() && "severity" in Required() && "expires_on" in Required();
  }

  /** Spelling changes no verdict: not of the exceptions, and not of the vulnerabilities. */
  lemma SpellingIgnored(exceptions: seq<Record>, others: seq<Record>, vulns: seq<Vuln>, today: int, tools: Tools)
    requires |exceptions| == |others| && forall i :: 0 <= i < |others| ==> Respelled(exceptions[i], others[i], tools)
    ensures Passes(exceptions, vulns, today, tools) <==> Passes(others, vulns, today, tools)
  {
    var grants, needs := Map(GrantOf(tools), exceptions), Map(NeedOf(tools), vulns);
    forall i | 0 <= i < |exceptions| ensures GrantFor(grants[i], exceptions[i], tools) && GrantFor(grants[i], others[i], tools) {
      RecordGrants(exceptions[i], tools);
      RespelledGrants(grants[i], exceptions[i], others[i], tools);
    }
    forall i | 0 <= i < |vulns| ensures NeedFor(needs[i], vulns[i], tools) {
      VulnNeeds(vulns[i], tools);
    }
    OrderMeaning(grants, exceptions, tools);
    OrderMeaning(grants, others, tools);
    forall i | 0 <= i < |needs| ensures Accounted(exceptions, vulns, i, today, tools) <==> Accounted(others, vulns, i, today, tools) {
      ClearMeaning(grants, exceptions, needs, vulns, i, today, tools);
      ClearMeaning(grants, others, needs, vulns, i, today, tools);
    }
    PassMeaning(exceptions, vulns, today, tools);
    PassMeaning(others, vulns, today, tools);
  }

  /** The advisory of an exception may be written in any case and with any surrounding space. */
  lemma AdvisorySpellingIgnored(exceptions: seq<Record>, k: nat, advisory: string, vulns: seq<Vuln>, today: int, tools: Tools)
    requires k < |exceptions| && "advisory" in exceptions[k] && exceptions[k]["advisory"] != "" && advisory != ""
    requires Plain(exceptions[k]["advisory"], tools) == Plain(advisory, tools)
    ensures Passes(exceptions, vulns, today, tools)
       <==> Passes(exceptions[k := exceptions[k]["advisory" := advisory]], vulns, today, tools)
  {
    var others := exceptions[k := exceptions[k]["advisory" := advisory]];
    forall i | 0 <= i < |others| ensures Respelled(exceptions[i], others[i], tools) {
    }
    SpellingIgnored(exceptions, others, vulns, today, tools);
  }
}
