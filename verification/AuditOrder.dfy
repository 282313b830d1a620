/** How far the verdict of the gate depends on the order in which a report names its vulnerabilities. */
module AuditOrder {
  import opened Collections
  import opened AuditExceptions
  import opened AuditRoundTrip
  import opened AuditReport
  import opened AuditGate
  import opened AuditVerdict

  // ---------- order and repetition ----------

  /** The condition without deduplication: every relevant vulnerability is covered, not just the first with its key. */
  ghost predicate EveryCovered(py: Python, index: map<Key, Rule>, today: int, vulns: seq<Vuln>) {
    forall v | v in vulns && Relevant(py, v) :: Excepted(py, index, v) && Covered(py, index, today, v)
  }

  /** Relevant vulnerabilities with the same key have the same severity. */
  ghost predicate Consistent(py: Python, vulns: seq<Vuln>) {
    forall u, v | u in vulns && v in vulns && Relevant(py, u) && Relevant(py, v) && VulnKey(py, u) == VulnKey(py, v) ::
      SeverityOf(py, u) == SeverityOf(py, v)
  }

  /** Every relevant vulnerability has a first one with its key. */
  lemma {:induction false} FirstExists(py: Python, vulns: seq<Vuln>, i: nat) returns (j: nat)
    requires i < |vulns| && Relevant(py, vulns[i])
    ensures j <= i && First(py, vulns, j) && VulnKey(py, vulns[j]) == VulnKey(py, vulns[i])
  {
    hide Relevant, VulnKey;
    j := i;
    if k :| 0 <= k < i && Relevant(py, vulns[k]) && VulnKey(py, vulns[k]) == VulnKey(py, vulns[i]) {
      j := FirstExists(py, vulns, k);
    }
  }

  lemma EveryCoveredPasses(py: Python, index: map<Key, Rule>, today: int, vulns: seq<Vuln>)
    requires EveryCovered(py, index, today, vulns)
    ensures AllCovered(py, index, today, vulns)
  {
    hide Relevant, Excepted, Covered;
    assert forall i | 0 <= i < |vulns| :: vulns[i] in vulns;
  }

  lemma ConsistentPassEveryCovered(py: Python, index: map<Key, Rule>, today: int, vulns: seq<Vuln>)
    requires Consistent(py, vulns) && AllCovered(py, index, today, vulns)
    ensures EveryCovered(py, index, today, vulns)
  {
    hide Relevant, VulnKey, SeverityOf, Permits;
    forall v | v in vulns && Relevant(py, v)
      ensures Excepted(py, index, v) && Covered(py, index, today, v)
    {
      var i :| 0 <= i < |vulns| && vulns[i] == v;
      var j := FirstExists(py, vulns, i);
      assert vulns[j] in vulns && Covered(py, index, today, vulns[j]);
    }
  }

  /** A vulnerability without its title, which only messages show. */
  function Untitled(v: Vuln): Vuln {
    v.(title := JNull)
  }

  predicate Reported(v: Vuln, vulns: seq<Vuln>) {
    exists u :: u in vulns && Untitled(u) == Untitled(v)
  }

  /** The same vulnerabilities occur, in whatever order, number and wording. */
  predicate SameReports(a: seq<Vuln>, b: seq<Vuln>) {
    (forall v | v in a :: Reported(v, b)) && (forall v | v in b :: Reported(v, a))
  }

  lemma UntitledIsJudgedAlike(py: Python, index: map<Key, Rule>, today: int, u: Vuln, v: Vuln)
    requires Untitled(u) == Untitled(v)
    ensures Relevant(py, u) == Relevant(py, v) && VulnKey(py, u) == VulnKey(py, v)
    ensures SeverityOf(py, u) == SeverityOf(py, v) && u.severity == v.severity
    ensures Excepted(py, index, u) == Excepted(py, index, v)
    ensures Covered(py, index, today, u) == Covered(py, index, today, v)
  {
    assert u == v.(title := u.title);
  }

  /** What is demanded of every vulnerability holds of a report when it holds of one with the same vulnerabilities. */
  lemma EveryCoveredElsewhere(py: Python, index: map<Key, Rule>, today: int, a: seq<Vuln>, b: seq<Vuln>)
    requires SameReports(a, b)
    ensures EveryCovered(py, index, today, a) ==> EveryCovered(py, index, today, b)
    ensures Consistent(py, a) ==> Consistent(py, b)
    ensures Readable(py, a) ==> Readable(py, b)
  {
    hide Alike, SameReports, Readable, EveryCovered, Consistent, NormalizeSeverity;
    AlikeReported(py, index, today, a, b);
    AlikeElsewhere(py, index, today, a, b);
    ReadableAsASet(py, a);
    ReadableAsASet(py, b);
  }

  lemma AlikeReported(py: Python, index: map<Key, Rule>, today: int, a: seq<Vuln>, b: seq<Vuln>)
    requires SameReports(a, b)
    ensures forall v | v in b :: exists u :: u in a && Alike(py, index, today, u, v)
  {
    hide Relevant, VulnKey, SeverityOf, Excepted, Covered, Untitled;
    forall v | v in b
      ensures exists u :: u in a && Alike(py, index, today, u, v)
    {
      var u :| u in a && Untitled(u) == Untitled(v);
      UntitledIsJudgedAlike(py, index, today, u, v);
    }
  }

  lemma AlikeElsewhere(py: Python, index: map<Key, Rule>, today: int, a: seq<Vuln>, b: seq<Vuln>)
    requires forall v | v in b :: exists u :: u in a && Alike(py, index, today, u, v)
    ensures EveryCovered(py, index, today, a) ==> EveryCovered(py, index, today, b)
    ensures Consistent(py, a) ==> Consistent(py, b)
    ensures forall v | v in b :: exists u :: u in a && u.severity == v.severity
  {
    hide Relevant, VulnKey, SeverityOf, Excepted, Covered;
    forall v | v in b
      ensures exists u :: u in a && u.severity == v.severity
    {
      var u :| u in a && Alike(py, index, today, u, v);
    }
  }

  ghost predicate Alike(py: Python, index: map<Key, Rule>, today: int, u: Vuln, v: Vuln) {
    && Relevant(py, u) == Relevant(py, v) && VulnKey(py, u) == VulnKey(py, v)
    && SeverityOf(py, u) == SeverityOf(py, v) && u.severity == v.severity
    && Excepted(py, index, u) == Excepted(py, index, v) && Covered(py, index, today, u) == Covered(py, index, today, v)
  }

  /** With equal severities for equal keys, the verdict depends only on which vulnerabilities occur. */
  lemma OrderAndRepetitionDoNotMatter(py: Python, records: Option<seq<Record>>, a: seq<Vuln>, b: seq<Vuln>, today: int)
    requires Consistent(py, a) && SameReports(a, b)
    ensures Passes(py, records, Some(a), today) <==> Passes(py, records, Some(b), today)
  {
    hide AllCovered, EveryCovered, Consistent, SameReports, Indexable, Rules, Readable;
    if records.Some? {
      var index := Rules(py, records.value);
      SameReportsSymmetric(a, b);
      EveryCoveredElsewhere(py, index, today, a, b);
      EveryCoveredElsewhere(py, index, today, b, a);
      CoveredAsASet(py, index, today, a);
      CoveredAsASet(py, index, today, b);
    }
  }

  lemma SameReportsSymmetric(a: seq<Vuln>, b: seq<Vuln>)
    ensures SameReports(a, b) <==> SameReports(b, a)
  {
  }

  lemma CoveredAsASet(py: Python, index: map<Key, Rule>, today: int, vulns: seq<Vuln>)
    requires Consistent(py, vulns)
    ensures AllCovered(py, index, today, vulns) <==> EveryCovered(py, index, today, vulns)
  {
    hide Consistent, AllCovered, EveryCovered;
    if AllCovered(py, index, today, vulns) {
      ConsistentPassEveryCovered(py, index, today, vulns);
    }
    if EveryCovered(py, index, today, vulns) {
      EveryCoveredPasses(py, index, today, vulns);
    }
  }

  lemma ReadableAsASet(py: Python, vulns: seq<Vuln>)
    ensures Readable(py, vulns) <==> forall v | v in vulns :: NormalizeSeverity(py, v.severity).Some?
  {
    hide NormalizeSeverity;
    assert forall i | 0 <= i < |vulns| :: vulns[i] in vulns;
  }

  // ---------- when the order matters ----------

  predicate Reordered(p: seq<Vuln>, vulns: seq<Vuln>) {
    multiset(p) == multiset(vulns)
  }

  lemma ReorderedMembers(p: seq<Vuln>, vulns: seq<Vuln>)
    requires Reordered(p, vulns)
    ensures forall v :: v in p <==> v in vulns
  {
    forall v
      ensures v in p <==> v in vulns
    {
      assert v in p <==> v in multiset(p);
      assert v in vulns <==> v in multiset(vulns);
    }
  }

  /** The check passes in every order exactly when every vulnerability is covered, not just the first of each key. */
  lemma EveryOrderPasses(py: Python, index: map<Key, Rule>, today: int, vulns: seq<Vuln>)
    ensures (forall p | Reordered(p, vulns) ::
            AllCovered(py, index, today, p)) <==> EveryCovered(py, index, today, vulns)
  {
    hide Relevant, Excepted, Covered, Reordered;
    if EveryCovered(py, index, today, vulns) {
      forall p | Reordered(p, vulns)
        ensures AllCovered(py, index, today, p)
      {
        ReorderedMembers(p, vulns);
        EveryCoveredPasses(py, index, today, p);
      }
    }
    if forall p | Reordered(p, vulns) :: AllCovered(py, index, today, p) {
      forall v | v in vulns && Relevant(py, v)
        ensures Excepted(py, index, v) && Covered(py, index, today, v)
      {
        var p := InFront(vulns, v);
        assert First(py, p, 0) && AllCovered(py, index, today, p);
      }
    }
  }

  lemma InFront(vulns: seq<Vuln>, v: Vuln) returns (p: seq<Vuln>)
    requires v in vulns
    ensures Reordered(p, vulns) && p != [] && p[0] == v
  {
    var i :| 0 <= i < |vulns| && vulns[i] == v;
    p := [v] + vulns[..i] + vulns[i + 1..];
    assert vulns == vulns[..i] + [v] + vulns[i + 1..];
  }

  /** Every relevant vulnerability has an exception, and for each key some occurrence is covered by it. */
  ghost predicate SomeCovered(py: Python, index: map<Key, Rule>, today: int, vulns: seq<Vuln>) {
    forall v | v in vulns && Relevant(py, v) ::
      Excepted(py, index, v) && exists u :: u in vulns && CoversKeyOf(py, index, today, u, v)
  }

  predicate CoversKeyOf(py: Python, index: map<Key, Rule>, today: int, u: Vuln, v: Vuln) {
    Relevant(py, u) && VulnKey(py, u) == VulnKey(py, v) && Covered(py, index, today, u)
  }

  lemma {:induction false} SplitIsReordered(s: seq<Vuln>, keep: Vuln -> bool)
    ensures Reordered(Filter(s, keep) + Filter(s, v => !keep(v)), s)
  {
    if s != [] {
      SplitIsReordered(s[..|s| - 1], keep);
      assert s == s[..|s| - 1] + [s[|s| - 1]];
    }
  }

  /** The covered vulnerabilities first. */
  function CoveredFirst(py: Python, index: map<Key, Rule>, today: int, vulns: seq<Vuln>): seq<Vuln> {
    Filter(vulns, v => Covered(py, index, today, v)) + Filter(vulns, v => !Covered(py, index, today, v))
  }

  lemma CoveredFirstMeaning(py: Python, index: map<Key, Rule>, today: int, vulns: seq<Vuln>)
    ensures var p := CoveredFirst(py, index, today, vulns);
            && Reordered(p, vulns)
            && forall i, v | 0 <= i < |p| && !Covered(py, index, today, p[i]) && v in vulns
                && Covered(py, index, today, v) ::
                 v in p[..i]
  {
    hide Covered, Reordered;
    var yes, no := (v: Vuln) => Covered(py, index, today, v), (v: Vuln) => !Covered(py, index, today, v);
    var a, b := Filter(vulns, yes), Filter(vulns, no);
    SplitIsReordered(vulns, yes);
    SameFilter(vulns, no, v => !yes(v));
    forall i, v | 0 <= i < |a + b| && !Covered(py, index, today, (a + b)[i]) && v in vulns
        && Covered(py, index, today, v)
      ensures v in (a + b)[..i]
    {
      FilterMembers(vulns, yes, (a + b)[i]);
      FilterMembers(vulns, yes, v);
      InSecond(a, b, i);
      assert (a + b)[..i] == a + b[..i - |a|];
    }
  }

  lemma InSecond<T>(a: seq<T>, b: seq<T>, i: nat)
    requires i < |a + b| && (a + b)[i] !in a
    ensures i >= |a|
  {
  }

  lemma {:induction false} SameFilter<T>(s: seq<T>, f: T -> bool, g: T -> bool)
    requires forall x | x in s :: f(x) == g(x)
    ensures Filter(s, f) == Filter(s, g)
  {
    if s != [] {
      assert s[|s| - 1] in s && forall x | x in s[..|s| - 1] :: x in s;
      SameFilter(s[..|s| - 1], f, g);
    }
  }

  /** The check passes in some order exactly then; putting the covered vulnerabilities first is such an order. */
  lemma SomeOrderPasses(py: Python, index: map<Key, Rule>, today: int, vulns: seq<Vuln>)
    ensures (exists p :: Reordered(p, vulns) && AllCovered(py, index, today, p)) <==>
            SomeCovered(py, index, today, vulns)
  {
    hide AllCovered, SomeCovered, Reordered, CoveredFirst;
    if p :| Reordered(p, vulns) && AllCovered(py, index, today, p) {
      PassingIsSomeCovered(py, index, today, vulns, p);
    }
    if SomeCovered(py, index, today, vulns) {
      CoveredFirstPasses(py, index, today, vulns);
      CoveredFirstMeaning(py, index, today, vulns);
    }
  }

  lemma PassingIsSomeCovered(py: Python, index: map<Key, Rule>, today: int, vulns: seq<Vuln>, p: seq<Vuln>)
    requires Reordered(p, vulns) && AllCovered(py, index, today, p)
    ensures SomeCovered(py, index, today, vulns)
  {
    hide Relevant, VulnKey, Excepted, Covered, Reordered;
    ReorderedMembers(p, vulns);
    forall v | v in vulns && Relevant(py, v)
      ensures Excepted(py, index, v) && exists u :: u in vulns && CoversKeyOf(py, index, today, u, v)
    {
      var i :| 0 <= i < |p| && p[i] == v;
      var j := FirstExists(py, p, i);
      assert p[j] in vulns && CoversKeyOf(py, index, today, p[j], v);
    }
  }

  lemma CoveredFirstPasses(py: Python, index: map<Key, Rule>, today: int, vulns: seq<Vuln>)
    requires SomeCovered(py, index, today, vulns)
    ensures AllCovered(py, index, today, CoveredFirst(py, index, today, vulns))
  {
    CoveredFirstMeaning(py, index, today, vulns);
    hide Relevant, VulnKey, Excepted, Covered, Reordered, CoveredFirst;
    var p := CoveredFirst(py, index, today, vulns);
    ReorderedMembers(p, vulns);
    assert forall i | 0 <= i < |p| :: p[i] in vulns;
    forall i | 0 <= i < |p| && First(py, p, i)
      ensures Covered(py, index, today, p[i])
    {
      var u :| u in vulns && CoversKeyOf(py, index, today, u, p[i]);
      NoneBefore(py, p, i, u);
    }
  }

  lemma NoneBefore(py: Python, p: seq<Vuln>, i: nat, u: Vuln)
    requires i < |p| && First(py, p, i) && Relevant(py, u) && VulnKey(py, u) == VulnKey(py, p[i])
    ensures u !in p[..i]
  {
    hide Relevant, VulnKey;
    assert forall j | 0 <= j < i :: p[..i][j] == p[j];
  }

  /** The order is irrelevant exactly when every order passes or none does. */
  lemma OrderIsIrrelevantIff(py: Python, index: map<Key, Rule>, today: int, vulns: seq<Vuln>)
    ensures (forall p, q | Reordered(p, vulns) && Reordered(q, vulns) ::
               AllCovered(py, index, today, p) <==> AllCovered(py, index, today, q)) <==>
            EveryCovered(py, index, today, vulns) || !SomeCovered(py, index, today, vulns)
  {
    hide AllCovered, EveryCovered, SomeCovered, Reordered;
    EveryOrderPasses(py, index, today, vulns);
    SomeOrderPasses(py, index, today, vulns);
  }

  /** Whether the verdict on a report cannot change by reordering what it yields. */
  ghost predicate VerdictIgnoresOrder(py: Python, records: Option<seq<Record>>, vulns: seq<Vuln>, today: int) {
    forall p, q | Reordered(p, vulns) && Reordered(q, vulns) ::
      Passes(py, records, Some(p), today) <==> Passes(py, records, Some(q), today)
  }

  /** For the whole gate: order is irrelevant iff it fails for another reason, or every order or none is covered. */
  lemma VerdictIgnoresOrderIff(py: Python, records: Option<seq<Record>>, vulns: seq<Vuln>, today: int)
    ensures VerdictIgnoresOrder(py, records, vulns, today) <==>
            || records.None? || !Readable(py, vulns) || !Indexable(py, records.value)
            || EveryCovered(py, Rules(py, records.value), today, vulns)
            || !SomeCovered(py, Rules(py, records.value), today, vulns)
  {
    hide AllCovered, EveryCovered, SomeCovered, Reordered, Readable, Indexable, Rules;
    forall p | Reordered(p, vulns)
      ensures Readable(py, p) <==> Readable(py, vulns)
    {
      ReorderedMembers(p, vulns);
      ReadableAsASet(py, p);
      ReadableAsASet(py, vulns);
    }
    if records.Some? && Readable(py, vulns) && Indexable(py, records.value) {
      var index := Rules(py, records.value);
      OrderIsIrrelevantIff(py, index, today, vulns);
      assert forall p | Reordered(p, vulns) :: Passes(py, records, Some(p), today) <==> AllCovered(py, index, today, p);
    }
  }

  // ---------- an exception file and a report whose order matters ----------

  const EXCEPTION: Entry := [
    Written("package", "pkg", Double), Written("advisory", "ghsa-1", Double), Written("severity", "high", Double),
    Written("mitigation", "none", Double), Written("expires_on", "2030-01-01", Double)]

  function AdvisoryFields(severity: string): seq<(string, Json)> {
    [("module_name", JStr("pkg")), ("severity", JStr(severity)), ("github_advisory_id", JStr("ghsa-1"))]
  }

  /** A report that names one advisory twice, with these severities. */
  function Report(first: string, second: string): Json {
    var entries := [("1", JObj(AdvisoryFields(first), "{...}")), ("2", JObj(AdvisoryFields(second), "{...}"))];
    JObj([("advisories", JObj(entries, "{...}"))], "{...}")
  }

  function Sighting(severity: string): Vuln {
    Vuln(JStr("pkg"), JStr(severity), JStr("ghsa-1"), JNull)
  }

  lemma AdvisoryYields(severity: string)
    ensures FromAdvisory(JObj(AdvisoryFields(severity), "{...}")) == Some(Sighting(severity))
  {
    GetsFrom(severity, "module_name");
    GetsFrom(severity, "name");
    GetsFrom(severity, "severity");
    GetsFrom(severity, "github_advisory_id");
    GetsFrom(severity, "title");
    GetsFrom(severity, "advisory");
    GetsFrom(severity, "overview");
    GetsFrom(severity, "url");
    hide Get, AdvisoryFields;
    OrMeaning([JNull, JNull, JNull, JNull]);
  }

  lemma GetsFrom(severity: string, key: string)
    ensures Get(AdvisoryFields(severity), key) ==
            if key == "module_name" then JStr("pkg")
            else if key == "severity" then JStr(severity)
            else if key == "github_advisory_id" then JStr("ghsa-1")
            else JNull
  {
    var a := AdvisoryFields(severity);
    var b, c := a[1..], a[2..];
    assert c == [("github_advisory_id", JStr("ghsa-1"))] && c[1..] == [] && b[1..] == c;
    assert Get(c, key) == if key == "github_advisory_id" then JStr("ghsa-1") else JNull;
    assert Get(b, key) == if key == "severity" then JStr(severity) else Get(c, key);
  }

  lemma ReportYields(first: string, second: string)
    ensures Yielded(Report(first, second)) == Some([Sighting(first), Sighting(second)])
  {
    hide FromAdvisory, AdvisoryFields, Sighting;
    AdvisoryYields(first);
    AdvisoryYields(second);
    var entries :=
      [("1", JObj(AdvisoryFields(first), "{...}")), ("2", JObj(AdvisoryFields(second), "{...}"))];
    AdvisoriesSnoc([], entries[0], Sighting(first));
    AdvisoriesSnoc([entries[0]], entries[1], Sighting(second));
    assert [] + [entries[0]] == [entries[0]] && [entries[0]] + [entries[1]] == entries;
    var report := Report(first, second);
    assert Get(report.fields, "advisories") == JObj(entries, "{...}") && report.fields[1..] == [];
    assert Get(report.fields[1..], "vulnerabilities") == JNull;
    YieldedByFormat(report);
    assert Entries(report, "advisories") == entries && Entries(report, "vulnerabilities") == [];
    var vs: seq<Vuln> := [Sighting(first), Sighting(second)];
    assert [] + [Sighting(first)] + [Sighting(second)] == vs && vs + [] == vs;
    assert FromAdvisories(entries) == Some(vs);
    assert FromVulnerabilities([]) == Some([]);
  }

  lemma AdvisoriesSnoc(before: seq<(string, Json)>, e: (string, Json), v: Vuln)
    requires FromAdvisories(before).Some? && FromAdvisory(e.1) == Some(v)
    ensures FromAdvisories(before + [e]) == Some(FromAdvisories(before).value + [v])
  {
    hide FromAdvisory;
    assert (before + [e])[..|before|] == before;
  }

  lemma ExceptionParses()
    ensures Parsed(Printed([EXCEPTION])) == Some([ToRecord(EXCEPTION)])
  {
    ExceptionIsPrintable();
    hide EXCEPTION, Printable, ToRecord, Printed, Parsed;
    PrintedParses([EXCEPTION]);
    assert Records([EXCEPTION]) == [ToRecord(EXCEPTION)];
  }

  lemma ExceptionIsPrintable()
    ensures Printable(EXCEPTION)
  {
    KeyOfPackage();
    KeyOfAdvisory();
    KeyOfSeverity();
    KeyOfMitigation();
    KeyOfExpiry();
    hide Clean, Plain;
    var e := EXCEPTION;
    assert e[0].key == "package" && e[1].key == "advisory" && e[2].key == "severity" && e[3].key == "mitigation"
        && e[4].key == "expires_on";
  }

  lemma KeyOfPackage()
    ensures Clean("package") && Plain("package")
  {
    CleanKey("package");
  }

  lemma KeyOfAdvisory()
    ensures Clean("advisory") && Plain("advisory")
  {
    CleanKey("advisory");
  }

  lemma KeyOfSeverity()
    ensures Clean("severity") && Plain("severity")
  {
    CleanKey("severity");
  }

  lemma KeyOfMitigation()
    ensures Clean("mitigation") && Plain("mitigation")
  {
    CleanKey("mitigation");
  }

  lemma KeyOfExpiry()
    ensures Clean("expires_on") && Plain("expires_on")
  {
    CleanKey("expires_on");
  }

  lemma PrintedParses(es: seq<Entry>)
    requires forall i | 0 <= i < |es| :: Printable(es[i])
    ensures Parsed(Printed(es)) == Some(Records(es))
  {
    hide Printable, Printed, Steps, Closed;
    ParsePrinted(es);
  }

  lemma CleanKey(key: string)
    requires key != "" && ':' !in key && !IsSpace(key[0]) && !IsSpace(key[|key| - 1])
    requires key[0] != '#' && key[0] != '-' && key[0] != 'v' && key != "exceptions"
    ensures Clean(key) && Plain(key)
  {
    StripsToItself(key);
  }

  lemma StripsToItself(s: string)
    requires s != "" && !IsSpace(s[0]) && !IsSpace(s[|s| - 1])
    ensures Strip(s) == s
  {
  }

  /** The fields of the exception, read back. */
  lemma ExceptionFields()
    ensures var r := ToRecord(EXCEPTION);
            && Field(r, "package") == "pkg" && Field(r, "advisory") == "ghsa-1" && Field(r, "severity") == "high"
            && Field(r, "mitigation") == "none" && Field(r, "expires_on") == "2030-01-01"
  {
    var e := EXCEPTION;
    assert e[..4][..3] == e[..3] && e[..3][..2] == e[..2] && e[..2][..1] == e[..1] && e[..1][..0] == [];
    assert ToRecord(e[..0]) == map[];
    assert ToRecord(e[..1]) == map["package" := "pkg"];
    assert ToRecord(e[..2]) == ToRecord(e[..1])["advisory" := "ghsa-1"];
    assert ToRecord(e[..3]) == ToRecord(e[..2])["severity" := "high"];
    assert ToRecord(e[..4]) == ToRecord(e[..3])["mitigation" := "none"];
    assert ToRecord(e) == ToRecord(e[..4])["expires_on" := "2030-01-01"];
  }

  /** What Python does on the strings of the example. */
  predicate LowersItself(py: Python, s: string) {
    py.lower(s) == s
  }

  /** An exception file and two reports that differ in the order of two advisories: one passes, the other fails. */
  lemma OrderCanMatter(py: Python, today: int)
    requires LowersItself(py, "high") && LowersItself(py, "critical") && LowersItself(py, "ghsa-1")
    requires py.fromIso("2030-01-01").Some? && today <= py.fromIso("2030-01-01").value
    ensures var file := Printed([EXCEPTION]);
            && Passes(py, Parsed(file), Yielded(Report("high", "critical")), today)
            && !Passes(py, Parsed(file), Yielded(Report("critical", "high")), today)
  {
    hide Relevant, VulnKey, SeverityOf, NormalizeSeverity, Sighting, Indexable, Rules, AllCovered;
    hide EXCEPTION, ToRecord, Printed, Parsed, Report, Yielded, LowersItself;
    ExceptionParses();
    ReportYields("high", "critical");
    ReportYields("critical", "high");
    var r := ToRecord(EXCEPTION);
    ExceptionIndexed(py, r);
    Sighted(py, "high");
    Sighted(py, "critical");
    var index := map[Key("pkg", "ghsa-1") := Rule("high", py.fromIso("2030-01-01").value)];
    SightingsJudged(py, index, today);
    assert Readable(py, [Sighting("high"), Sighting("critical")]);
    assert Readable(py, [Sighting("critical"), Sighting("high")]);
  }

  lemma ExceptionIndexed(py: Python, r: Record)
    requires LowersItself(py, "high") && LowersItself(py, "ghsa-1") && py.fromIso("2030-01-01").Some?
    requires r == ToRecord(EXCEPTION)
    ensures Indexable(py, [r])
    ensures Rules(py, [r]) == map[Key("pkg", "ghsa-1") := Rule("high", py.fromIso("2030-01-01").value)]
  {
    hide Strip, ToRecord, Field;
    ExceptionFields();
    StripsToItself("pkg");
    StripsToItself("ghsa-1");
    StripsToItself("high");
    assert WellFormed(py, r) && KeyOf(py, r) == Key("pkg", "ghsa-1");
    assert [r][..0] == [] && Rules(py, []) == map[];
  }

  lemma Sighted(py: Python, severity: string)
    requires severity == "high" || severity == "critical"
    requires LowersItself(py, severity) && LowersItself(py, "ghsa-1")
    ensures var v := Sighting(severity);
            && Relevant(py, v) && VulnKey(py, v) == Key("pkg", "ghsa-1")
            && SeverityOf(py, v) == severity && NormalizeSeverity(py, v.severity).Some?
  {
    hide Strip;
    StripsToItself("pkg");
    StripsToItself("ghsa-1");
    StripsToItself(severity);
  }

  /** With one rule for high, the sighting that comes first decides. */
  lemma SightingsJudged(py: Python, index: map<Key, Rule>, today: int)
    requires Relevant(py, Sighting("high")) && VulnKey(py, Sighting("high")) == Key("pkg", "ghsa-1")
    requires Relevant(py, Sighting("critical")) && VulnKey(py, Sighting("critical")) == Key("pkg", "ghsa-1")
    requires SeverityOf(py, Sighting("high")) == "high" && SeverityOf(py, Sighting("critical")) == "critical"
    requires Key("pkg", "ghsa-1") in index && index[Key("pkg", "ghsa-1")].severity == "high"
    requires today <= index[Key("pkg", "ghsa-1")].expiresOn
    ensures AllCovered(py, index, today, [Sighting("high"), Sighting("critical")])
    ensures !AllCovered(py, index, today, [Sighting("critical"), Sighting("high")])
  {
    hide Relevant, VulnKey, SeverityOf, Sighting;
    var good, bad := [Sighting("high"), Sighting("critical")], [Sighting("critical"), Sighting("high")];
    assert good[0] == Sighting("high") && good[1] == Sighting("critical") && !First(py, good, 1);
    assert bad[0] == Sighting("critical") && First(py, bad, 0);
  }
}
