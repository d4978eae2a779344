/** Laws of the audit gate, over all lists of exceptions and vulnerabilities. */
module GateLaws {
  import opened Wrappers
  import opened Sequences
  import opened Text
  import opened ExceptionList
  import opened AuditGate

  // ----- the order of the exceptions does not matter -----

  lemma OrderPermuted(grants: seq<Grant>, others: seq<Grant>)
    requires multiset(grants) == multiset(others) && GrantsInOrder(grants)
    ensures GrantsInOrder(others)
  {
    forall i | 0 <= i < |others| ensures others[i].Grant? {
      assert others[i] in multiset(grants);
    }
    forall i, j | 0 <= i < j < |others| ensures others[i].key != others[j].key {
      var g, h := others[i], others[j];
      assert g in multiset(grants) && h in multiset(grants);
      if g == h {
        TwoPositions(others, i, j);
        TwiceMeansTwoPositions(grants, g);
        assert false;
      } else {
        var k :| 0 <= k < |grants| && grants[k] == g;
        var l :| 0 <= l < |grants| && grants[l] == h;
        assert grants[if k < l then k else l].key != grants[if k < l then l else k].key;
      }
    }
  }

  lemma ClearSame(grants: seq<Grant>, others: seq<Grant>, needs: seq<Need>, today: int)
    requires forall g :: g in grants <==> g in others
    ensures AllClear(grants, needs, today) <==> AllClear(others, needs, today)
  {
    forall key ensures Covered(grants, key, today) == Covered(others, key, today) {}
    forall key, severity ensures SeverityAgrees(grants, key, severity) == SeverityAgrees(others, key, severity) {}
    forall i | 0 <= i < |needs| ensures Clear(grants, needs, i, today) == Clear(others, needs, i, today) {}
  }

  lemma ExceptionsPermuted(exceptions: seq<Record>, others: seq<Record>, vulns: seq<Vuln>, today: int, tools: Tools)
    requires multiset(exceptions) == multiset(others)
    ensures Passes(exceptions, vulns, today, tools) <==> Passes(others, vulns, today, tools)
  {
    var grants, more := Map(GrantOf(tools), exceptions), Map(GrantOf(tools), others);
    MapPermuted(GrantOf(tools), exceptions, others);
    forall g ensures g in grants <==> g in more {
      assert g in grants <==> g in multiset(grants);
      assert g in more <==> g in multiset(more);
    }
    ClearSame(grants, more, Map(NeedOf(tools), vulns), today);
    if GrantsInOrder(grants) {
      OrderPermuted(grants, more);
    }
    if GrantsInOrder(more) {
      OrderPermuted(more, grants);
    }
  }

  // ----- one more exception -----

  lemma OrderExtended(grants: seq<Grant>, g: Grant)
    requires g.Grant? && forall h | h in grants :: h.Grant? ==> h.key != g.key
    ensures GrantsInOrder(grants + [g]) <==> GrantsInOrder(grants)
  {
    var all := grants + [g];
    assert forall i :: 0 <= i < |grants| ==> all[i] == grants[i] && grants[i] in grants;
  }

  lemma ClearExtended(grants: seq<Grant>, g: Grant, needs: seq<Need>, i: nat, today: int)
    requires g.Grant? && forall h | h in grants :: h.Grant? ==> h.key != g.key
    requires i < |needs|
    ensures Clear(grants, needs, i, today) ==> Clear(grants + [g], needs, i, today)
    ensures !NeedsKey(needs, i, g.key) ==> (Clear(grants + [g], needs, i, today) ==> Clear(grants, needs, i, today))
  {
    if needs[i].Need? {
      var key, severity := needs[i].key, needs[i].severity;
      assert forall h :: h in grants + [g] <==> h in grants || h == g;
      if Covered(grants, key, today) {
        var h: Grant :| h in grants && h.Grant? && h.key == key && h.expiresOn >= today;
        assert h in grants + [g];
      }
    }
  }

  /**
   A valid exception for a new key keeps a pass; and when nothing needs its key it
   does not make one.
   */
  lemma FreshException(exceptions: seq<Record>, e: Record, vulns: seq<Vuln>, today: int, tools: Tools)
    requires var g := GrantOf(tools)(e);
             g.Grant? && forall h | h in Map(GrantOf(tools), exceptions) :: h.Grant? ==> h.key != g.key
    ensures Passes(exceptions, vulns, today, tools) ==> Passes(exceptions + [e], vulns, today, tools)
    ensures !NeededIn(Map(NeedOf(tools), vulns), GrantOf(tools)(e).key) ==>
              (Passes(exceptions + [e], vulns, today, tools) <==> Passes(exceptions, vulns, today, tools))
  {
    var grants, g, needs := Map(GrantOf(tools), exceptions), GrantOf(tools)(e), Map(NeedOf(tools), vulns);
    assert Map(GrantOf(tools), exceptions + [e]) == grants + [g];
    OrderExtended(grants, g);
    forall i | 0 <= i < |needs|
      ensures Clear(grants, needs, i, today) ==> Clear(grants + [g], needs, i, today)
      ensures !NeedsKey(needs, i, g.key) ==> (Clear(grants + [g], needs, i, today) ==> Clear(grants, needs, i, today))
    {
      ClearExtended(grants, g, needs, i, today);
    }
  }

  // ----- the passing of time -----

  /**
   A list that passes on one day passes on another exactly when every needed
   exception lasts until then; so it passes on every earlier day.
   */
  lemma PassesUntil(exceptions: seq<Record>, vulns: seq<Vuln>, today: int, other: int, tools: Tools)
    requires Passes(exceptions, vulns, today, tools)
    ensures var needs := Map(NeedOf(tools), vulns);
            Passes(exceptions, vulns, other, tools)
            <==> forall g: Grant | g in Map(GrantOf(tools), exceptions) && g.Grant? && NeededIn(needs, g.key) :: other <= g.expiresOn
    ensures other <= today ==> Passes(exceptions, vulns, other, tools)
  {
    var grants, needs := Map(GrantOf(tools), exceptions), Map(NeedOf(tools), vulns);
    forall i | 0 <= i < |needs| && needs[i].Need?
      ensures exists g: Grant :: g in grants && g.Grant? && g.key == needs[i].key && g.expiresOn >= today && NeededIn(needs, g.key)
      ensures forall g: Grant, h: Grant :: g in grants && h in grants && g.key == needs[i].key && h.key == needs[i].key ==> g == h
    {
      assert Clear(grants, needs, i, today);
      assert NeedsKey(needs, i, needs[i].key);
      OneGrantPerKey(grants);
    }
    if Passes(exceptions, vulns, other, tools) {
      forall g: Grant | g in grants && g.Grant? && NeededIn(needs, g.key) ensures other <= g.expiresOn {
        var i :| 0 <= i < |needs| && NeedsKey(needs, i, g.key);
        assert Clear(grants, needs, i, other);
      }
    }
    if forall g: Grant | g in grants && g.Grant? && NeededIn(needs, g.key) :: other <= g.expiresOn {
      forall i | 0 <= i < |needs| ensures Clear(grants, needs, i, other) {
        assert Clear(grants, needs, i, today);
      }
    }
    if other <= today {
      forall i | 0 <= i < |needs| ensures Clear(grants, needs, i, other) {
        assert Clear(grants, needs, i, today);
      }
    }
  }

  lemma OneGrantPerKey(grants: seq<Grant>)
    requires GrantsInOrder(grants)
    ensures forall g: Grant, h: Grant :: g in grants && h in grants && g.key == h.key ==> g == h
  {
  }

  // ----- what is looked at only once -----

  /** Every vulnerability has its own severity checked. */
  ghost predicate Strict(grants: seq<Grant>, needs: seq<Need>) {
    forall i :: 0 <= i < |needs| && needs[i].Need? ==> SeverityAgrees(grants, needs[i].key, needs[i].severity)
  }

  /** Vulnerabilities with one key have one severity, where an exception names one. */
  ghost predicate OneSeverity(grants: seq<Grant>, needs: seq<Need>) {
    forall i, j :: 0 <= i < |needs| && 0 <= j < |needs| && needs[i].Need? && NeedsKey(needs, j, needs[i].key)
      ==> needs[i].severity == needs[j].severity
          || forall g: Grant | g in grants && g.Grant? && g.key == needs[i].key :: g.severity == ""
  }

  lemma {:induction false} FirstNeed(needs: seq<Need>, i: nat) returns (f: nat)
    requires i < |needs| && needs[i].Need?
    ensures f <= i && NeedsKey(needs, f, needs[i].key) && IsFirst(needs, f)
  {
    if IsFirst(needs, i) {
      f := i;
    } else {
      var j :| 0 <= j < i && NeedsKey(needs, j, needs[i].key);
      f := FirstNeed(needs, j);
    }
  }

  /**
   Looking once per key never changes what is covered and what is expired.  It
   misses a severity mismatch exactly when two vulnerabilities share a key, differ
   in severity, and the exception for the key names a severity.
   */
  lemma SeenOnceIsEnough(grants: seq<Grant>, needs: seq<Need>, today: int)
    requires GrantsInOrder(grants) && AllClear(grants, needs, today)
    ensures Strict(grants, needs) <==> OneSeverity(grants, needs)
  {
    if OneSeverity(grants, needs) {
      forall i | 0 <= i < |needs| && needs[i].Need? ensures SeverityAgrees(grants, needs[i].key, needs[i].severity) {
        var f := FirstNeed(needs, i);
        assert Clear(grants, needs, f, today);
      }
    }
    if Strict(grants, needs) {
      OneGrantPerKey(grants);
      forall i, j | 0 <= i < |needs| && 0 <= j < |needs| && needs[i].Need? && NeedsKey(needs, j, needs[i].key)
        ensures needs[i].severity == needs[j].severity
                || forall g: Grant | g in grants && g.Grant? && g.key == needs[i].key :: g.severity == ""
      {
        assert SeverityAgrees(grants, needs[i].key, needs[i].severity) && SeverityAgrees(grants, needs[i].key, needs[j].severity);
      }
    }
  }

  lemma MismatchHidden(key: Key, today: int)
    ensures var grants := [Grant(key, "high", today)];
            var needs := [Need(key, "high"), Need(key, "critical")];
            && GrantsInOrder(grants) && AllClear(grants, needs, today) && !Strict(grants, needs)
            && !AllClear(grants, [needs[1], needs[0]], today)
  {
    var g := Grant(key, "high", today);
    var needs := [Need(key, "high"), Need(key, "critical")];
    assert g in [g];
    assert NeedsKey(needs, 0, key);
    assert !SeverityAgrees([g], key, "critical");
    assert needs[1].Need?;
    assert IsFirst([needs[1], needs[0]], 0);
    assert !Clear([g], [needs[1], needs[0]], 0, today);
  }

  /** An exception for a high vulnerability, accepted until day 7. */
  function HighException(): Record {
    map["package" := "left-pad", "advisory" := "GHSA-1", "severity" := "high", "mitigation" := "none", "expires_on" := "day 7"]
  }

  function VulnOf(severity: string): Vuln {
    Vuln("left-pad", severity, "GHSA-1", "")
  }

  function PlainTools(): Tools {
    Tools((s: string) => s, (s: string) => Some(7))
  }

  lemma HighGranted()
    ensures GrantOf(PlainTools())(HighException()) == Grant(Key("left-pad", "GHSA-1"), "high", 7)
  {
    var r := HighException();
    assert Value(r, "package") == "left-pad" && Value(r, "advisory") == "GHSA-1" && Value(r, "severity") == "high";
    assert Value(r, "mitigation") == "none" && Value(r, "expires_on") == "day 7";
    assert Complete(r);
    StripTrimmed("left-pad");
    StripTrimmed("GHSA-1");
    StripTrimmed("high");
    assert ExceptionKey(r, PlainTools()) == Key("left-pad", "GHSA-1");
  }

  lemma VulnNeeds(severity: string)
    requires severity in {"high", "critical"}
    ensures NeedOf(PlainTools())(VulnOf(severity)) == Need(Key("left-pad", "GHSA-1"), severity)
  {
    StripTrimmed("left-pad");
    StripTrimmed("GHSA-1");
    StripTrimmed(severity);
  }

  /** A report whose pass hides a mismatch: listed the other way round it fails. */
  lemma MismatchMissed()
    ensures Passes([HighException()], [VulnOf("high"), VulnOf("critical")], 7, PlainTools())
    ensures !Passes([HighException()], [VulnOf("critical"), VulnOf("high")], 7, PlainTools())
  {
    var key := Key("left-pad", "GHSA-1");
    var grant, need := GrantOf(PlainTools()), NeedOf(PlainTools());
    HighGranted();
    VulnNeeds("high");
    VulnNeeds("critical");
    MismatchHidden(key, 7);
    assert Map(grant, [HighException()]) == [Grant(key, "high", 7)];
    assert Map(need, [VulnOf("high"), VulnOf("critical")]) == [Need(key, "high"), Need(key, "critical")];
    assert Map(need, [VulnOf("critical"), VulnOf("high")]) == [Need(key, "critical"), Need(key, "high")];
  }

  // ----- the order of the report -----

  lemma NeedsSame(needs: seq<Need>, others: seq<Need>)
    requires multiset(needs) == multiset(others)
    ensures forall n :: n in needs <==> n in others
  {
    forall n ensures n in needs <==> n in others {
      assert n in needs <==> n in multiset(needs);
      assert n in others <==> n in multiset(others);
    }
  }

  /** Where no severity is at stake, any list of the same needs is clear. */
  lemma ReorderedClear(grants: seq<Grant>, needs: seq<Need>, others: seq<Need>, today: int)
    requires AllClear(grants, needs, today) && Strict(grants, needs)
    requires forall n :: n in needs <==> n in others
    ensures AllClear(grants, others, today)
  {
    forall i | 0 <= i < |others| ensures Clear(grants, others, i, today) {
      assert others[i] in needs;
      var k :| 0 <= k < |needs| && needs[k] == others[i];
      assert Clear(grants, needs, k, today);
    }
  }

  /** Where two needs disagree under an exception that names a severity, one of them fails in front. */
  lemma DisagreeingNeed(grants: seq<Grant>, needs: seq<Need>) returns (m: nat)
    requires !OneSeverity(grants, needs)
    ensures m < |needs| && needs[m].Need? && !SeverityAgrees(grants, needs[m].key, needs[m].severity)
  {
    var i, j :| 0 <= i < |needs| && 0 <= j < |needs| && needs[i].Need? && NeedsKey(needs, j, needs[i].key)
      && needs[i].severity != needs[j].severity
      && !(forall g: Grant | g in grants && g.Grant? && g.key == needs[i].key :: g.severity == "");
    var g: Grant :| g in grants && g.Grant? && g.key == needs[i].key && g.severity != "";
    m := if g.severity == needs[i].severity then j else i;
  }

  lemma FrontFails(grants: seq<Grant>, needs: seq<Need>, today: int)
    requires needs != [] && needs[0].Need? && !SeverityAgrees(grants, needs[0].key, needs[0].severity)
    ensures !AllClear(grants, needs, today)
  {
    assert IsFirst(needs, 0);
    assert !Clear(grants, needs, 0, today);
  }

  lemma ReorderedPasses(exceptions: seq<Record>, vulns: seq<Vuln>, others: seq<Vuln>, today: int, tools: Tools)
    requires Passes(exceptions, vulns, today, tools) && multiset(others) == multiset(vulns)
    requires OneSeverity(Map(GrantOf(tools), exceptions), Map(NeedOf(tools), vulns))
    ensures Passes(exceptions, others, today, tools)
  {
    var grants, needs := Map(GrantOf(tools), exceptions), Map(NeedOf(tools), vulns);
    SeenOnceIsEnough(grants, needs, today);
    MapPermuted(NeedOf(tools), vulns, others);
    NeedsSame(needs, Map(NeedOf(tools), others));
    ReorderedClear(grants, needs, Map(NeedOf(tools), others), today);
  }

  lemma FailingOrder(exceptions: seq<Record>, vulns: seq<Vuln>, today: int, tools: Tools) returns (others: seq<Vuln>)
    requires !OneSeverity(Map(GrantOf(tools), exceptions), Map(NeedOf(tools), vulns))
    ensures multiset(others) == multiset(vulns) && !Passes(exceptions, others, today, tools)
  {
    var grants, needs := Map(GrantOf(tools), exceptions), Map(NeedOf(tools), vulns);
    var m := DisagreeingNeed(grants, needs);
    others := [vulns[m]] + Without(vulns, m);
    TakenOut(vulns, m);
    assert Map(NeedOf(tools), others)[0] == needs[m];
    FrontFails(grants, Map(NeedOf(tools), others), today);
  }

  /**
   A pass holds for every order of the report exactly when vulnerabilities with one key
   have one severity wherever the exception for the key names one.
   */
  lemma ReportPermuted(exceptions: seq<Record>, vulns: seq<Vuln>, today: int, tools: Tools)
    requires Passes(exceptions, vulns, today, tools)
    ensures (forall others: seq<Vuln> | multiset(others) == multiset(vulns) :: Passes(exceptions, others, today, tools))
       <==> OneSeverity(Map(GrantOf(tools), exceptions), Map(NeedOf(tools), vulns))
  {
    if OneSeverity(Map(GrantOf(tools), exceptions), Map(NeedOf(tools), vulns)) {
      forall others: seq<Vuln> | multiset(others) == multiset(vulns) ensures Passes(exceptions, others, today, tools) {
        ReorderedPasses(exceptions, vulns, others, today, tools);
      }
    } else {
      var others := FailingOrder(exceptions, vulns, today, tools);
    }
  }
}
