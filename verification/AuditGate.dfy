/**
 The gate over dependency audits: tools/check_pnpm_audit_exceptions.py, main.
 Lower-casing and the ISO date parser are parameters; an absent value of the audit
 is the empty string, which the code treats alike.
 */
module AuditGate {
  import opened Wrappers
  import opened Sequences
  import opened Text
  import opened ExceptionList

  datatype Tools = Tools(lower: string -> string, parseDate: string -> Option<int>)

  datatype Key = Key(package: string, advisory: string)

  datatype Fault =
    | Incomplete(record: Record)
    | InvalidDate(record: Record)
    | BlankKey
    | Duplicate(key: Key)
    | NoAdvisory(vuln: Vuln)
    | SeverityMismatch(vuln: Vuln, expected: string)
    | Uncovered(vuln: Vuln)
    | Expired(vuln: Vuln, expiredOn: int)

  // ----- exceptions and vulnerabilities in normal form -----

  function Value(r: Record, field: string): string {
    if field in r then r[field] else ""
  }

  function Lowered(s: string, tools: Tools): string {
    tools.lower(Strip(s))
  }

  predicate Complete(r: Record) {
    && Value(r, "package") != "" && Value(r, "advisory") != "" && Value(r, "severity") != ""
    && Value(r, "mitigation") != "" && Value(r, "expires_on") != ""
  }

  function ExceptionKey(r: Record, tools: Tools): Key {
    Key(Strip(Value(r, "package")), Lowered(Value(r, "advisory"), tools))
  }

  /** An exception on its own: what it grants, or what is wrong with it. */
  datatype Grant = Grant(key: Key, severity: string, expiresOn: int) | Refused(fault: Fault)

  function GrantOf(tools: Tools): Record -> Grant {
    (r: Record) =>
      var date := tools.parseDate(Value(r, "expires_on"));
      var key := ExceptionKey(r, tools);
      if !Complete(r) then Refused(Incomplete(r))
      else if date == None then Refused(InvalidDate(r))
      else if key.package == "" || key.advisory == "" then Refused(BlankKey)
      else Grant(key, Lowered(Value(r, "severity"), tools), date.value)
  }

  /** A vulnerability as the audit yields it. */
  datatype Vuln = Vuln(name: string, severity: string, advisory: string, title: string)

  /** A vulnerability on its own: of no interest, without an identifier, or a need for a grant. */
  datatype Need = Minor | Unidentified | Need(key: Key, severity: string)

  function NeedOf(tools: Tools): Vuln -> Need {
    (v: Vuln) =>
      var severity := Lowered(v.severity, tools);
      var advisory := Lowered(v.advisory, tools);
      if severity !in {"high", "critical"} || v.name == "" then Minor
      else if advisory == "" then Unidentified
      else Need(Key(Strip(v.name), advisory), severity)
  }

  // ----- the two loops as functions -----

  datatype Accepted = Accepted(severity: string, expiresOn: int)

  datatype Index = Index(byKey: map<Key, Accepted>, faults: seq<Fault>)

  function Indexed(x: Index, g: Grant): Index {
    match g
    case Refused(fault) => x.(faults := x.faults + [fault])
    case Grant(key, severity, expiresOn) =>
      if key in x.byKey then x.(faults := x.faults + [Duplicate(key)])
      else x.(byKey := x.byKey[key := Accepted(severity, expiresOn)])
  }

  function IndexOf(grants: seq<Grant>): Index {
    if grants == [] then Index(map[], [])
    else Indexed(IndexOf(grants[..|grants| - 1]), grants[|grants| - 1])
  }

  datatype Walk = Walk(seen: set<Key>, errors: seq<Fault>, uncovered: seq<Fault>, expired: seq<Fault>)

  function Walked(w: Walk, v: Vuln, need: Need, index: map<Key, Accepted>, today: int): Walk {
    match need
    case Minor => w
    case Unidentified => w.(errors := w.errors + [NoAdvisory(v)])
    case Need(key, severity) =>
      if key in w.seen then w
      else
        var first := w.(seen := w.seen + {key});
        if key !in index then first.(uncovered := w.uncovered + [Uncovered(v)])
        else
          var a := index[key];
          var mismatch := a.severity != "" && a.severity != severity;
          first.(errors := w.errors + if mismatch then [SeverityMismatch(v, a.severity)] else [],
                 expired := w.expired + if a.expiresOn < today then [Expired(v, a.expiresOn)] else [])
  }

  function WalkOver(vulns: seq<Vuln>, needs: seq<Need>, index: map<Key, Accepted>, today: int): Walk
    requires |vulns| == |needs|
  {
    if vulns == [] then Walk({}, [], [], [])
    else
      var n := |vulns| - 1;
      Walked(WalkOver(vulns[..n], needs[..n], index, today), vulns[n], needs[n], index, today)
  }

  function Faults(grants: seq<Grant>, vulns: seq<Vuln>, needs: seq<Need>, today: int): seq<Fault>
    requires |vulns| == |needs|
  {
    var x := IndexOf(grants);
    var w := WalkOver(vulns, needs, x.byKey, today);
    x.faults + w.errors + w.uncovered + w.expired
  }

  // ----- what a pass means -----

  ghost predicate GrantsInOrder(grants: seq<Grant>) {
    && (forall i :: 0 <= i < |grants| ==> grants[i].Grant?)
    && (forall i, j :: 0 <= i < j < |grants| && grants[i].Grant? && grants[j].Grant? ==> grants[i].key != grants[j].key)
  }

  /** Some exception for the key has not expired. */
  ghost predicate Covered(grants: seq<Grant>, key: Key, today: int) {
    exists g: Grant :: g in grants && g.Grant? && g.key == key && g.expiresOn >= today
  }

  /** Every exception for the key that names a severity names this one. */
  ghost predicate SeverityAgrees(grants: seq<Grant>, key: Key, severity: string) {
    forall g: Grant | g in grants && g.Grant? && g.key == key :: g.severity == "" || g.severity == severity
  }

  predicate NeedsKey(needs: seq<Need>, i: nat, key: Key)
    requires i < |needs|
  {
    needs[i].Need? && needs[i].key == key
  }

  /** No earlier vulnerability has the same key. */
  ghost predicate IsFirst(needs: seq<Need>, i: nat)
    requires i < |needs| && needs[i].Need?
  {
    forall j :: 0 <= j < i ==> !NeedsKey(needs, j, needs[i].key)
  }

  /** What the gate demands of the vulnerability at `i`. */
  ghost predicate Clear(grants: seq<Grant>, needs: seq<Need>, i: nat, today: int)
    requires i < |needs|
  {
    match needs[i]
    case Minor => true
    case Unidentified => false
    case Need(key, severity) =>
      && Covered(grants, key, today)
      && (IsFirst(needs, i) ==> SeverityAgrees(grants, key, severity))
  }

  ghost predicate AllClear(grants: seq<Grant>, needs: seq<Need>, today: int) {
    forall i :: 0 <= i < |needs| ==> Clear(grants, needs, i, today)
  }

  ghost predicate Passes(exceptions: seq<Record>, vulns: seq<Vuln>, today: int, tools: Tools) {
    var grants := Map(GrantOf(tools), exceptions);
    GrantsInOrder(grants) && AllClear(grants, Map(NeedOf(tools), vulns), today)
  }

  // ----- the program -----

  method BuildIndex(exceptions: seq<Record>, tools: Tools) returns (byKey: map<Key, Accepted>, errors: seq<Fault>)
    ensures Index(byKey, errors) == IndexOf(Map(GrantOf(tools), exceptions))
  {
    ghost var grants := Map(GrantOf(tools), exceptions);
    byKey, errors := map[], [];
    for k := 0 to |exceptions|
      invariant Index(byKey, errors) == IndexOf(grants[..k])
    {
      var r := exceptions[k];
      assert grants[..k + 1][..k] == grants[..k] && grants[k] == GrantOf(tools)(r);
      if !Complete(r) {
        errors := errors + [Incomplete(r)];
        continue;
      }
      var date := tools.parseDate(Value(r, "expires_on"));
      if date == None {
        errors := errors + [InvalidDate(r)];
        continue;
      }
      var key := ExceptionKey(r, tools);
      if key.package == "" || key.advisory == "" {
        errors := errors + [BlankKey];
        continue;
      }
      if key in byKey {
        errors := errors + [Duplicate(key)];
        continue;
      }
      byKey := byKey[key := Accepted(Lowered(Value(r, "severity"), tools), date.value)];
    }
    assert grants[..|exceptions|] == grants;
  }

  method MatchVulns(vulns: seq<Vuln>, index: map<Key, Accepted>, today: int, tools: Tools)
    returns (errors: seq<Fault>, uncovered: seq<Fault>, expired: seq<Fault>)
    ensures var w := WalkOver(vulns, Map(NeedOf(tools), vulns), index, today);
            errors == w.errors && uncovered == w.uncovered && expired == w.expired
  {
    ghost var needs := Map(NeedOf(tools), vulns);
    var w := Walk({}, [], [], []);
    for k := 0 to |vulns|
      invariant w == WalkOver(vulns[..k], needs[..k], index, today)
    {
      assert vulns[..k + 1][..k] == vulns[..k];
      assert needs[..k + 1][..k] == needs[..k] && needs[k] == NeedOf(tools)(vulns[k]);
      w := MatchOne(w, vulns[k], index, today, tools);
    }
    assert vulns[..|vulns|] == vulns && needs[..|vulns|] == needs;
    return w.errors, w.uncovered, w.expired;
  }

  /** One turn of the loop over the vulnerabilities. */
  method MatchOne(w: Walk, v: Vuln, index: map<Key, Accepted>, today: int, tools: Tools) returns (after: Walk)
    ensures after == Walked(w, v, NeedOf(tools)(v), index, today)
  {
    var severity := Lowered(v.severity, tools);
    if severity !in {"high", "critical"} || v.name == "" {
      return w;
    }
    var advisory := Lowered(v.advisory, tools);
    if advisory == "" {
      return w.(errors := w.errors + [NoAdvisory(v)]);
    }
    var key := Key(Strip(v.name), advisory);
    if key in w.seen {
      return w;
    }
    after := w.(seen := w.seen + {key});
    if key !in index {
      return after.(uncovered := w.uncovered + [Uncovered(v)]);
    }
    var a := index[key];
    if a.severity != "" && a.severity != severity {
      after := after.(errors := w.errors + [SeverityMismatch(v, a.severity)]);
    }
    if a.expiresOn < today {
      after := after.(expired := w.expired + [Expired(v, a.expiresOn)]);
    }
  }

  /** The gate: 0 means that every vulnerability it looks at is accounted for. */
  method Gate(exceptions: seq<Record>, vulns: seq<Vuln>, today: int, tools: Tools) returns (code: int, errors: seq<Fault>)
    ensures errors == Faults(Map(GrantOf(tools), exceptions), vulns, Map(NeedOf(tools), vulns), today)
    ensures code == (if errors == [] then 0 else 1)
    ensures code == 0 <==> Passes(exceptions, vulns, today, tools)
  {
    var index, indexErrors := BuildIndex(exceptions, tools);
    var matchErrors, uncovered, expired := MatchVulns(vulns, index, today, tools);
    errors := indexErrors + matchErrors;
    if uncovered != [] {
      errors := errors + uncovered;
    }
    if expired != [] {
      errors := errors + expired;
    }
    code := if errors != [] then 1 else 0;
    PassIsFaultless(exceptions, vulns, today, tools);
  }

  lemma PassIsFaultless(exceptions: seq<Record>, vulns: seq<Vuln>, today: int, tools: Tools)
    ensures Faults(Map(GrantOf(tools), exceptions), vulns, Map(NeedOf(tools), vulns), today) == []
       <==> Passes(exceptions, vulns, today, tools)
  {
    FaultlessIsPass(Map(GrantOf(tools), exceptions), vulns, Map(NeedOf(tools), vulns), today);
  }

  // ----- the index agrees with the list -----

  /** An index without faults holds exactly the grants. */
  ghost predicate Holds(byKey: map<Key, Accepted>, grants: seq<Grant>) {
    && (forall g | g in grants :: g.Grant? && g.key in byKey && byKey[g.key] == Accepted(g.severity, g.expiresOn))
    && (forall key | key in byKey :: exists g :: g in grants && g.Grant? && g.key == key)
  }

  lemma {:induction false} IndexAgrees(grants: seq<Grant>)
    ensures var x := IndexOf(grants);
            && (x.faults == [] <==> GrantsInOrder(grants))
            && (x.faults == [] ==> Holds(x.byKey, grants))
  {
    if grants != [] {
      var n := |grants| - 1;
      var before, g := grants[..n], grants[n];
      var x := IndexOf(before);
      IndexAgrees(before);
      assert grants == before + [g];
      if x.faults == [] {
        GrantFits(before, g, x.byKey);
      } else {
        OrderOfPart(before, g);
      }
    }
  }

  lemma OrderOfPart(before: seq<Grant>, g: Grant)
    ensures GrantsInOrder(before + [g]) ==> GrantsInOrder(before)
  {
    var all := before + [g];
    assert forall i :: 0 <= i < |before| ==> all[i] == before[i];
  }

  lemma GrantFits(before: seq<Grant>, g: Grant, byKey: map<Key, Accepted>)
    requires GrantsInOrder(before) && Holds(byKey, before)
    ensures GrantsInOrder(before + [g]) <==> g.Grant? && g.key !in byKey
    ensures g.Grant? && g.key !in byKey ==> Holds(byKey[g.key := Accepted(g.severity, g.expiresOn)], before + [g])
  {
    var all := before + [g];
    assert all[|before|] == g;
    assert forall i :: 0 <= i < |before| ==> all[i] == before[i] && before[i] in before;
    if g.Grant? && g.key in byKey {
      var h :| h in before && h.Grant? && h.key == g.key;
      var i :| 0 <= i < |before| && before[i] == h;
      assert all[i].key == all[|before|].key;
    }
  }

  /** The grant for a key that stands first in the list. */
  ghost predicate FirstGrant(grants: seq<Grant>, i: nat, key: Key) {
    && i < |grants| && grants[i].Grant? && grants[i].key == key
    && forall j :: 0 <= j < i && grants[j].Grant? ==> grants[j].key != key
  }

  lemma FirstGrantGrows(grants: seq<Grant>, i: nat, key: Key)
    requires grants != []
    ensures i < |grants| - 1 ==> (FirstGrant(grants, i, key) <==> FirstGrant(grants[..|grants| - 1], i, key))
  {
  }

  /**
   Whatever else is wrong with the list, the index holds for each key the first valid
   exception, and holds nothing else.
   */
  lemma {:induction false} IndexKeepsFirst(grants: seq<Grant>, key: Key)
    ensures var byKey := IndexOf(grants).byKey;
            && (key in byKey <==> exists i: nat :: FirstGrant(grants, i, key))
            && (forall i: nat :: FirstGrant(grants, i, key) ==>
                  key in byKey && byKey[key] == Accepted(grants[i].severity, grants[i].expiresOn))
  {
    if grants != [] {
      var n := |grants| - 1;
      var before := grants[..n];
      IndexKeepsFirst(before, key);
      forall i: nat ensures i < n ==> (FirstGrant(grants, i, key) <==> FirstGrant(before, i, key)) {
        FirstGrantGrows(grants, i, key);
      }
      if i: nat :| FirstGrant(before, i, key) {
        assert FirstGrant(grants, i, key);
      } else {
        NoneBefore(before, key);
        assert FirstGrant(grants, n, key) <==> grants[n].Grant? && grants[n].key == key;
      }
    }
  }

  /** A key without a first grant has no grant. */
  lemma {:induction false} NoneBefore(grants: seq<Grant>, key: Key)
    requires forall i: nat :: !FirstGrant(grants, i, key)
    ensures forall j :: 0 <= j < |grants| && grants[j].Grant? ==> grants[j].key != key
  {
    if grants != [] {
      var n := |grants| - 1;
      forall i: nat ensures !FirstGrant(grants[..n], i, key) {
        FirstGrantGrows(grants, i, key);
      }
      NoneBefore(grants[..n], key);
      assert forall j :: 0 <= j < n ==> grants[j] == grants[..n][j];
      assert !FirstGrant(grants, n, key);
    }
  }

  // ----- the walk agrees with the demands -----

  predicate Clean(w: Walk) {
    w.errors == [] && w.uncovered == [] && w.expired == []
  }

  ghost predicate NeededIn(needs: seq<Need>, key: Key) {
    exists i :: 0 <= i < |needs| && NeedsKey(needs, i, key)
  }

  lemma {:induction false} WalkAgrees(grants: seq<Grant>, vulns: seq<Vuln>, needs: seq<Need>, byKey: map<Key, Accepted>, today: int)
    requires |vulns| == |needs| && Holds(byKey, grants)
    ensures var w := WalkOver(vulns, needs, byKey, today);
            && (forall key :: key in w.seen <==> NeededIn(needs, key))
            && (Clean(w) <==> AllClear(grants, needs, today))
    decreases |vulns|
  {
    if vulns != [] {
      var n := |vulns| - 1;
      var w := WalkOver(vulns[..n], needs[..n], byKey, today);
      WalkAgrees(grants, vulns[..n], needs[..n], byKey, today);
      NeededGrows(needs);
      ClearGrows(grants, needs, today);
      if Clean(w) {
        LastClear(grants, vulns[n], needs, byKey, w, today);
      }
    }
  }

  lemma NeededGrows(needs: seq<Need>)
    requires needs != []
    ensures var n := |needs| - 1;
            forall key :: NeededIn(needs, key) <==> NeededIn(needs[..n], key) || NeedsKey(needs, n, key)
  {
    var n := |needs| - 1;
    forall key ensures NeededIn(needs, key) <==> NeededIn(needs[..n], key) || NeedsKey(needs, n, key) {
      if NeededIn(needs[..n], key) {
        var i :| 0 <= i < n && NeedsKey(needs[..n], i, key);
        assert NeedsKey(needs, i, key);
      }
      if NeededIn(needs, key) && !NeedsKey(needs, n, key) {
        var i :| 0 <= i < |needs| && NeedsKey(needs, i, key);
        assert NeedsKey(needs[..n], i, key);
      }
    }
  }

  lemma ClearGrows(grants: seq<Grant>, needs: seq<Need>, today: int)
    requires needs != []
    ensures var n := |needs| - 1;
            AllClear(grants, needs, today) <==> AllClear(grants, needs[..n], today) && Clear(grants, needs, n, today)
  {
    var n := |needs| - 1;
    forall i | 0 <= i < n ensures Clear(grants, needs[..n], i, today) <==> Clear(grants, needs, i, today) {
      if needs[i].Need? {
        FirstInPart(needs, n, i);
      }
    }
  }

  lemma FirstInPart(needs: seq<Need>, n: nat, i: nat)
    requires i < n <= |needs| && needs[i].Need?
    ensures IsFirst(needs[..n], i) <==> IsFirst(needs, i)
  {
    assert forall j :: 0 <= j < i ==> NeedsKey(needs[..n], j, needs[i].key) == NeedsKey(needs, j, needs[i].key);
  }

  /** One step of the walk, when all before it was clear. */
  lemma LastClear(grants: seq<Grant>, v: Vuln, needs: seq<Need>, byKey: map<Key, Accepted>, w: Walk, today: int)
    requires needs != [] && Clean(w) && Holds(byKey, grants)
    requires AllClear(grants, needs[..|needs| - 1], today)
    requires forall key :: key in w.seen <==> NeededIn(needs[..|needs| - 1], key)
    ensures Clean(Walked(w, v, needs[|needs| - 1], byKey, today)) <==> Clear(grants, needs, |needs| - 1, today)
  {
    var n := |needs| - 1;
    if needs[n].Need? {
      var key := needs[n].key;
      FirstIsUnseen(needs);
      if key in w.seen {
        var i :| 0 <= i < n && NeedsKey(needs[..n], i, key);
        assert Clear(grants, needs[..n], i, today);
      } else {
        UniqueGrant(grants, byKey, key, needs[n].severity, today);
      }
    }
  }

  lemma FirstIsUnseen(needs: seq<Need>)
    requires needs != [] && needs[|needs| - 1].Need?
    ensures var n := |needs| - 1; IsFirst(needs, n) <==> !NeededIn(needs[..n], needs[n].key)
  {
    var n := |needs| - 1;
    assert forall j :: 0 <= j < n ==> NeedsKey(needs[..n], j, needs[n].key) == NeedsKey(needs, j, needs[n].key);
  }

  /** The index entry for a key stands for the grants with that key. */
  lemma UniqueGrant(grants: seq<Grant>, byKey: map<Key, Accepted>, key: Key, severity: string, today: int)
    requires Holds(byKey, grants)
    ensures Covered(grants, key, today) <==> key in byKey && byKey[key].expiresOn >= today
    ensures key in byKey ==> (SeverityAgrees(grants, key, severity) <==> byKey[key].severity == "" || byKey[key].severity == severity)
  {
    if key in byKey {
      var g: Grant :| g in grants && g.Grant? && g.key == key;
    }
  }

  /** The list of faults is empty exactly for a pass. */
  lemma FaultlessIsPass(grants: seq<Grant>, vulns: seq<Vuln>, needs: seq<Need>, today: int)
    requires |vulns| == |needs|
    ensures Faults(grants, vulns, needs, today) == [] <==> GrantsInOrder(grants) && AllClear(grants, needs, today)
  {
    var x := IndexOf(grants);
    IndexAgrees(grants);
    if x.faults == [] {
      WalkAgrees(grants, vulns, needs, x.byKey, today);
    }
  }

  // ----- every fault has its reason -----

  /** A refused exception, or a second one for a key. */
  ghost predicate IndexReason(f: Fault, grants: seq<Grant>) {
    || Refused(f) in grants
    || (exists i, j :: 0 <= i < j < |grants| && grants[i].Grant? && grants[j].Grant? && grants[i].key == grants[j].key && f == Duplicate(grants[j].key))
  }

  lemma {:induction false} IndexFaultsHaveReasons(grants: seq<Grant>)
    ensures forall f :: f in IndexOf(grants).faults ==> IndexReason(f, grants)
  {
    if grants != [] {
      var n := |grants| - 1;
      var before := grants[..n];
      IndexFaultsHaveReasons(before);
      forall f | f in IndexOf(before).faults ensures IndexReason(f, grants) {
        if Refused(f) !in before {
          var i, j :| 0 <= i < j < |before| && before[i].Grant? && before[j].Grant? && before[i].key == before[j].key && f == Duplicate(before[j].key);
          assert grants[i] == before[i] && grants[j] == before[j];
        }
      }
      if grants[n].Grant? && grants[n].key in IndexOf(before).byKey {
        IndexKeepsFirst(before, grants[n].key);
        var i: nat :| FirstGrant(before, i, grants[n].key);
        assert grants[i] == before[i];
        assert IndexReason(Duplicate(grants[n].key), grants);
      }
    }
  }

  /** What the fault says of this vulnerability is so. */
  predicate WalkReason(f: Fault, v: Vuln, need: Need, index: map<Key, Accepted>, today: int) {
    || (f == NoAdvisory(v) && need == Unidentified)
    || (f == Uncovered(v) && need.Need? && need.key !in index)
    || (need.Need? && need.key in index
        && var a := index[need.key];
           || (f == SeverityMismatch(v, a.severity) && a.severity != "" && a.severity != need.severity)
           || (f == Expired(v, a.expiresOn) && a.expiresOn < today))
  }

  ghost predicate HasReason(f: Fault, vulns: seq<Vuln>, needs: seq<Need>, index: map<Key, Accepted>, today: int)
    requires |vulns| == |needs|
  {
    exists i :: 0 <= i < |vulns| && WalkReason(f, vulns[i], needs[i], index, today)
  }

  lemma {:induction false} WalkFaultsHaveReasons(vulns: seq<Vuln>, needs: seq<Need>, index: map<Key, Accepted>, today: int)
    requires |vulns| == |needs|
    ensures var w := WalkOver(vulns, needs, index, today);
            forall f :: f in w.errors || f in w.uncovered || f in w.expired ==> HasReason(f, vulns, needs, index, today)
    decreases |vulns|
  {
    if vulns != [] {
      var n := |vulns| - 1;
      var w := WalkOver(vulns[..n], needs[..n], index, today);
      var after := Walked(w, vulns[n], needs[n], index, today);
      WalkFaultsHaveReasons(vulns[..n], needs[..n], index, today);
      forall f | f in after.errors || f in after.uncovered || f in after.expired ensures HasReason(f, vulns, needs, index, today) {
        if f in w.errors || f in w.uncovered || f in w.expired {
          var vs, ns := vulns[..n], needs[..n];
          assert HasReason(f, vs, ns, index, today);
          var i :| 0 <= i < |vs| && WalkReason(f, vs[i], ns[i], index, today);
          assert vs[i] == vulns[i] && ns[i] == needs[i];
        } else {
          assert WalkReason(f, vulns[n], needs[n], index, today);
        }
      }
    }
  }
}
