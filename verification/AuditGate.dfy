/** The gate of check_pnpm_audit_exceptions: an index of exceptions, a deduplicating pass over the
  * vulnerabilities, one verdict - and the declarative condition the verdict decides.
  */
module AuditGate {
  import opened Collections
  import opened AuditExceptions
  import opened AuditReport

  /** What the interpreter supplies: str.lower, and date.fromisoformat as a day number. */
  datatype Python = Python(lower: string -> string, fromIso: string -> Option<int>)

  // ---------- normalisers ----------

  /** normalize_severity; None where Python raises because the value has no strip. */
  function NormalizeSeverity(py: Python, severity: Json): Option<string> {
    if !Truthy(severity) then Some(py.lower(Strip("")))
    else match severity case JStr(s) => Some(py.lower(Strip(s))) case _ => None
  }

  function NormalizePackage(name: Json): string {
    if name == JNull then "" else Strip(Text(name))
  }

  function NormalizeAdvisory(py: Python, advisory: Json): string {
    if advisory == JNull then "" else py.lower(Strip(Text(advisory)))
  }

  predicate High(sev: string) {
    sev == "high" || sev == "critical"
  }

  // ---------- the exception index ----------

  datatype Key = Key(package: string, advisory: string)

  datatype Rule = Rule(severity: string, expiresOn: int)

  const REQUIRED: seq<string> := ["package", "advisory", "severity", "mitigation", "expires_on"]

  /** exc.get(field), absent and empty being the same to the gate. */
  function Field(r: Record, field: string): string {
    if field in r then r[field] else ""
  }

  predicate Complete(r: Record) {
    forall i | 0 <= i < |REQUIRED| :: Field(r, REQUIRED[i]) != ""
  }

  function KeyOf(py: Python, r: Record): Key {
    Key(Strip(Field(r, "package")), py.lower(Strip(Field(r, "advisory"))))
  }

  /** A record that can enter the index: complete, dated, and with a package and advisory that are not blank. */
  predicate WellFormed(py: Python, r: Record) {
    && Complete(r)
    && py.fromIso(Field(r, "expires_on")).Some?
    && KeyOf(py, r).package != "" && KeyOf(py, r).advisory != ""
  }

  function RuleOf(py: Python, r: Record): Rule
    requires WellFormed(py, r)
  {
    Rule(py.lower(Strip(Field(r, "severity"))), py.fromIso(Field(r, "expires_on")).value)
  }

  /** Every record can enter the index and no two want the same key. */
  ghost predicate Indexable(py: Python, records: seq<Record>) {
    && (forall i | 0 <= i < |records| :: WellFormed(py, records[i]))
    && (forall i, j | 0 <= i < j < |records| :: KeyOf(py, records[i]) != KeyOf(py, records[j]))
  }

  /** The index holds the rule of every record under its key, and nothing else. */
  ghost predicate Indexes(py: Python, records: seq<Record>, index: map<Key, Rule>) {
    && (forall i | 0 <= i < |records| && WellFormed(py, records[i]) :: KeyOf(py, records[i]) in index)
    && (forall k | k in index :: exists i :: FirstWith(py, records, k, i) && index[k] == RuleOf(py, records[i]))
  }

  /** The first well-formed record with this key. */
  ghost predicate FirstWith(py: Python, records: seq<Record>, k: Key, i: int) {
    && 0 <= i < |records| && WellFormed(py, records[i]) && KeyOf(py, records[i]) == k
    && forall j | 0 <= j < i && WellFormed(py, records[j]) :: KeyOf(py, records[j]) != k
  }

  datatype Problem =
    | MissingFields | InvalidDate | BlankKey | DuplicateException(key: Key)
    | NoAdvisoryID(name: Json) | SeverityMismatch(key: Key, expected: string)

  /** What keeps a record out of an index: the problem main reports for it. */
  ghost predicate Faulty(py: Python, records: seq<Record>, p: Problem) {
    exists i :: FaultAt(py, records, i, p)
  }

  ghost predicate FaultAt(py: Python, records: seq<Record>, i: int, p: Problem) {
    && 0 <= i < |records|
    && var r := records[i];
       match p
       case MissingFields => !Complete(r)
       case InvalidDate => Complete(r) && Undated(py, r)
       case BlankKey => Complete(r) && !Undated(py, r) && !WellFormed(py, r)
       case DuplicateException(k) => WellFormed(py, r) && KeyOf(py, r) == k && !FirstWith(py, records, k, i)
       case _ => false
  }

  predicate Undated(py: Python, r: Record) {
    py.fromIso(Field(r, "expires_on")).None?
  }

  /** The first loop of main: every record is either indexed or the cause of one error. */
  method BuildIndex(py: Python, records: seq<Record>) returns (index: map<Key, Rule>, errors: seq<Problem>)
    ensures errors == [] <==> Indexable(py, records)
    ensures Indexes(py, records, index)
    ensures |index| + |errors| == |records|
    ensures forall p :: p in errors <==> Faulty(py, records, p)
  {
    hide Indexable, Indexes, Faulty, IndexAfter;
    index, errors := map[], [];
    NothingToIndex(py);
    assert records[..0] == [];
    for i := 0 to |records|
      invariant errors == [] <==> Indexable(py, records[..i])
      invariant Indexes(py, records[..i], index)
      invariant |index| + |errors| == i
      invariant forall p :: p in errors <==> Faulty(py, records[..i], p)
    {
      var exc := records[i];
      assert records[..i + 1] == records[..i] + [exc];
      IndexableGrows(py, records[..i], exc, index);
      IndexGrows(py, records[..i], exc, index);
      FaultyGrows(py, records[..i], exc, index);
      var error := IndexRecord(py, exc, index);
      match error {
        case Some(p) => errors := errors + [p];
        case None =>
          IndexedOnce(py, exc, index);
          index := index[KeyOf(py, exc) := RuleOf(py, exc)];
      }
    }
    assert records[..|records|] == records;
  }

  lemma NothingToIndex(py: Python)
    ensures Indexable(py, []) && Indexes(py, [], map[]) && forall p :: !Faulty(py, [], p)
  {
  }

  /** The body of the first loop of main, up to the assignment to the index: the error that keeps a record out. */
  method IndexRecord(py: Python, exc: Record, index: map<Key, Rule>) returns (error: Option<Problem>)
    ensures error == Rejection(py, exc, index)
  {
    hide Complete, Field;
    if !Complete(exc) {
      return Some(MissingFields);
    }
    if py.fromIso(Field(exc, "expires_on")).None? {
      return Some(InvalidDate);
    }
    var key := KeyOf(py, exc);
    if key.package == "" || key.advisory == "" {
      return Some(BlankKey);
    }
    if key in index {
      return Some(DuplicateException(key));
    }
    return None;
  }

  function Rejection(py: Python, r: Record, index: map<Key, Rule>): Option<Problem> {
    if !Complete(r) then Some(MissingFields)
    else if Undated(py, r) then Some(InvalidDate)
    else if !WellFormed(py, r) then Some(BlankKey)
    else if KeyOf(py, r) in index then Some(DuplicateException(KeyOf(py, r)))
    else None
  }

  lemma IndexedOnce(py: Python, r: Record, index: map<Key, Rule>)
    requires Rejection(py, r, index).None?
    ensures WellFormed(py, r) && |index[KeyOf(py, r) := RuleOf(py, r)]| == |index| + 1
    ensures IndexAfter(py, r, index) == index[KeyOf(py, r) := RuleOf(py, r)]
  {
  }

  lemma FaultyGrows(py: Python, before: seq<Record>, r: Record, index: map<Key, Rule>)
    requires Indexes(py, before, index)
    ensures forall p :: Faulty(py, before + [r], p) <==> Faulty(py, before, p) || Rejection(py, r, index) == Some(p)
    ensures Rejection(py, r, index).Some? ==> IndexAfter(py, r, index) == index
    ensures Rejection(py, r, index).None? <==> WellFormed(py, r) && KeyOf(py, r) !in index
  {
    assert WellFormed(py, r) ==> Complete(r) && !Undated(py, r);
    hide Complete, Undated, WellFormed, KeyOf, RuleOf, Indexes, FaultAt;
    forall p
      ensures Faulty(py, before + [r], p) <==> Faulty(py, before, p) || Rejection(py, r, index) == Some(p)
    {
      LastFault(py, before, r, index, p);
      forall j | j != |before|
        ensures FaultAt(py, before + [r], j, p) <==> FaultAt(py, before, j, p)
      {
        EarlierFault(py, before, r, j, p);
      }
      NoFaultBeyond(py, before, p);
    }
  }

  lemma NoFaultBeyond(py: Python, before: seq<Record>, p: Problem)
    ensures !FaultAt(py, before, |before|, p)
  {
  }

  lemma LastFault(py: Python, before: seq<Record>, r: Record, index: map<Key, Rule>, p: Problem)
    requires Indexes(py, before, index)
    ensures FaultAt(py, before + [r], |before|, p) <==> Rejection(py, r, index) == Some(p)
  {
    assert WellFormed(py, r) ==> Complete(r) && !Undated(py, r);
    hide Complete, Undated, WellFormed, KeyOf, RuleOf;
    assert (before + [r])[|before|] == r && forall j | 0 <= j < |before| :: (before + [r])[j] == before[j];
    IndexedWhenFound(py, before, index, KeyOf(py, r));
    if KeyOf(py, r) in index {
      var j :| FirstWith(py, before, KeyOf(py, r), j);
      assert (before + [r])[j] == before[j];
    }
  }

  lemma EarlierFault(py: Python, before: seq<Record>, r: Record, j: int, p: Problem)
    requires j != |before|
    ensures FaultAt(py, before + [r], j, p) <==> FaultAt(py, before, j, p)
  {
    hide Complete, Undated, WellFormed, KeyOf;
    assert forall i | 0 <= i < |before| :: (before + [r])[i] == before[i];
    assert forall k | 0 <= j < |before| :: FirstWith(py, before + [r], k, j) <==> FirstWith(py, before, k, j);
  }

  /** The index after one more record. */
  function IndexAfter(py: Python, r: Record, index: map<Key, Rule>): map<Key, Rule> {
    if WellFormed(py, r) && KeyOf(py, r) !in index then index[KeyOf(py, r) := RuleOf(py, r)] else index
  }

  lemma IndexableGrows(py: Python, before: seq<Record>, r: Record, index: map<Key, Rule>)
    requires Indexes(py, before, index)
    ensures Indexable(py, before + [r]) <==> Indexable(py, before) && WellFormed(py, r) && KeyOf(py, r) !in index
  {
    hide WellFormed, KeyOf, RuleOf;
    var upTo, n := before + [r], |before|;
    assert upTo[n] == r && forall j | 0 <= j < n :: upTo[j] == before[j];
    IndexedWhenFound(py, before, index, KeyOf(py, r));
  }

  lemma IndexGrows(py: Python, before: seq<Record>, r: Record, index: map<Key, Rule>)
    requires Indexes(py, before, index)
    ensures Indexes(py, before + [r], IndexAfter(py, r, index))
  {
    hide WellFormed, KeyOf, RuleOf;
    var upTo, next := before + [r], IndexAfter(py, r, index);
    assert upTo[|before|] == r && forall j | 0 <= j < |before| :: upTo[j] == before[j];
    forall k | k in next
      ensures exists j :: FirstWith(py, upTo, k, j) && next[k] == RuleOf(py, upTo[j])
    {
      if k in index {
        var j :| FirstWith(py, before, k, j) && index[k] == RuleOf(py, before[j]);
        assert FirstWith(py, upTo, k, j);
      } else {
        assert FirstWith(py, upTo, k, |before|);
      }
    }
  }

  // ---------- the verdict ----------

  /** A vulnerability the gate looks at: high or critical, and named. */
  predicate Relevant(py: Python, v: Vuln) {
    NormalizeSeverity(py, v.severity).Some? && High(NormalizeSeverity(py, v.severity).value) && Truthy(v.name)
  }

  function VulnKey(py: Python, v: Vuln): Key {
    Key(NormalizePackage(v.name), NormalizeAdvisory(py, v.advisory))
  }

  function SeverityOf(py: Python, v: Vuln): string {
    match NormalizeSeverity(py, v.severity) case Some(s) => s case None => ""
  }

  /** v has an advisory id and an exception for its key. */
  predicate Excepted(py: Python, index: map<Key, Rule>, v: Vuln) {
    VulnKey(py, v).advisory != "" && VulnKey(py, v) in index
  }

  /** v has an exception that has not expired and is for its severity, or for none. */
  predicate Covered(py: Python, index: map<Key, Rule>, today: int, v: Vuln) {
    VulnKey(py, v) in index && Permits(index[VulnKey(py, v)], today, SeverityOf(py, v))
  }

  predicate Permits(rule: Rule, today: int, severity: string) {
    rule.expiresOn >= today && (rule.severity == "" || rule.severity == severity)
  }

  /** The first relevant vulnerability with its key. */
  ghost predicate First(py: Python, vulns: seq<Vuln>, i: nat)
    requires i < |vulns|
  {
    Relevant(py, vulns[i]) && forall j | 0 <= j < i && Relevant(py, vulns[j]) ::
        VulnKey(py, vulns[j]) != VulnKey(py, vulns[i])
  }

  /** The condition the second loop of main decides. */
  ghost predicate AllCovered(py: Python, index: map<Key, Rule>, today: int, vulns: seq<Vuln>) {
    && (forall i | 0 <= i < |vulns| && Relevant(py, vulns[i]) :: Excepted(py, index, vulns[i]))
    && (forall i | 0 <= i < |vulns| && First(py, vulns, i) :: Covered(py, index, today, vulns[i]))
  }

  /** What the second loop of main appends to errors, missing_exceptions and expired_exceptions. */
  datatype Findings = Findings(errors: seq<Problem>, missing: seq<Key>, expired: seq<Key>)

  const CLEAN := Findings([], [], [])

  /** Each list holds exactly what it is for: unexcepted keys, expired keys, and the vulnerabilities that are wrong. */
  ghost predicate Reports(py: Python, index: map<Key, Rule>, today: int, vulns: seq<Vuln>, found: Findings) {
    && Distinct(found.missing) && (forall k :: k in found.missing <==> SeenAt(py, vulns, k) && k !in index)
    && Distinct(found.expired)
    && (forall k :: k in found.expired <==> SeenAt(py, vulns, k) && k in index && index[k].expiresOn < today)
    && (forall p :: p in found.errors <==> Wrong(py, index, vulns, p))
  }

  ghost predicate Wrong(py: Python, index: map<Key, Rule>, vulns: seq<Vuln>, p: Problem) {
    match p
    case NoAdvisoryID(name) =>
      exists i :: 0 <= i < |vulns| && Relevant(py, vulns[i])
                  && VulnKey(py, vulns[i]).advisory == "" && vulns[i].name == name
    case SeverityMismatch(k, expected) =>
      k.advisory != "" && k in index && index[k].severity != "" && index[k].severity != expected
      && exists i :: 0 <= i < |vulns| && First(py, vulns, i) && VulnKey(py, vulns[i]) == k
          && SeverityOf(py, vulns[i]) == expected
    case _ => false
  }

  /** The second loop of main; None where Python raises. */
  method CheckVulns(py: Python, index: map<Key, Rule>, today: int, vulns: seq<Vuln>) returns (r: Option<Findings>)
    ensures r.Some? <==> Readable(py, vulns)
    ensures r.Some? ==> (r.value == CLEAN <==> AllCovered(py, index, today, vulns))
    ensures r.Some? ==> Reports(py, index, today, vulns, r.value)
  {
    hide NormalizeSeverity, AllCovered, Admits, Seen, SeenAfter, Reports;
    var found := CLEAN;
    var seen: set<Key> := {};
    NothingToCover(py, index, today);
    assert vulns[..0] == [];
    for i := 0 to |vulns|
      invariant forall j | 0 <= j < i :: NormalizeSeverity(py, vulns[j].severity).Some?
      invariant Seen(py, vulns[..i], seen)
      invariant found == CLEAN <==> AllCovered(py, index, today, vulns[..i])
      invariant Reports(py, index, today, vulns[..i], found)
    {
      var v := vulns[i];
      if NormalizeSeverity(py, v.severity).None? {
        return None;
      }
      assert vulns[..i + 1] == vulns[..i] + [v];
      CoveredGrows(py, index, today, vulns[..i], v, seen);
      SeenGrows(py, vulns[..i], v, seen);
      ghost var before := found;
      ghost var seenBefore := seen;
      found, seen := CheckVuln(py, index, today, v, found, seen);
      ReportsGrow(py, index, today, vulns[..i], v, seenBefore, before, found);
    }
    assert vulns[..|vulns|] == vulns;
    return Some(found);
  }

  /** v is relevant, has an advisory id, and its key was not seen before. */
  predicate Fresh(py: Python, v: Vuln, seen: set<Key>) {
    Relevant(py, v) && VulnKey(py, v).advisory != "" && VulnKey(py, v) !in seen
  }

  /** What one vulnerability adds to the findings. */
  ghost predicate Notes(
    py: Python, index: map<Key, Rule>, today: int, v: Vuln, seen: set<Key>, found: Findings, found': Findings) {
    var k := VulnKey(py, v);
    var rule := if Fresh(py, v, seen) && k in index then Some(index[k]) else None;
    && found'.missing == found.missing + (if Fresh(py, v, seen) && k !in index then [k] else [])
    && found'.expired == found.expired + (if rule.Some? && rule.value.expiresOn < today then [k] else [])
    && found'.errors == found.errors
         + (if Relevant(py, v) && k.advisory == "" then [NoAdvisoryID(v.name)]
            else if rule.Some? && rule.value.severity !in ["", SeverityOf(py, v)]
            then [SeverityMismatch(k, SeverityOf(py, v))]
            else [])
  }

  /** The body of the second loop of main. */
  method CheckVuln(py: Python, index: map<Key, Rule>, today: int, v: Vuln, found: Findings, seen: set<Key>)
    returns (found': Findings, seen': set<Key>)
    requires NormalizeSeverity(py, v.severity).Some?
    ensures seen' == SeenAfter(py, v, seen)
    ensures Notes(py, index, today, v, seen, found, found')
    ensures found' == CLEAN <==> found == CLEAN && Admits(py, index, today, v, seen)
  {
    hide NormalizeSeverity, NormalizeAdvisory, NormalizePackage, High, Truthy;
    found', seen' := found, seen;
    var sev := NormalizeSeverity(py, v.severity).value;
    if !High(sev) || !Truthy(v.name) {
      return;
    }
    var advisoryKey := NormalizeAdvisory(py, v.advisory);
    if advisoryKey == "" {
      found' := found.(errors := found.errors + [NoAdvisoryID(v.name)]);
      return;
    }
    var key := Key(NormalizePackage(v.name), advisoryKey);
    if key in seen {
      return;
    }
    seen' := seen + {key};
    if key !in index {
      found' := found.(missing := found.missing + [key]);
      return;
    }
    var exc := index[key];
    if exc.severity != "" && exc.severity != sev {
      found' := found'.(errors := found'.errors + [SeverityMismatch(key, sev)]);
    }
    if exc.expiresOn < today {
      found' := found'.(expired := found'.expired + [key]);
    }
  }

  lemma ReportsGrow(py: Python, index: map<Key, Rule>, today: int, vulns: seq<Vuln>, v: Vuln, seen: set<Key>,
                    found: Findings, found': Findings)
    requires Seen(py, vulns, seen) && Reports(py, index, today, vulns, found)
    requires Notes(py, index, today, v, seen, found, found')
    ensures Reports(py, index, today, vulns + [v], found')
  {
    hide Relevant, VulnKey, SeverityOf, SeenAt, Wrong, Notes;
    SeenGrows(py, vulns, v, seen);
    KeysNoted(py, index, today, vulns, v, seen, found, found');
    forall p
      ensures p in found'.errors <==> Wrong(py, index, vulns + [v], p)
    {
      WrongGrows(py, index, today, vulns, v, seen, found, found', p);
    }
  }

  lemma KeysNoted(py: Python, index: map<Key, Rule>, today: int, vulns: seq<Vuln>, v: Vuln, seen: set<Key>,
                  found: Findings, found': Findings)
    requires Seen(py, vulns, seen) && Reports(py, index, today, vulns, found)
    requires Notes(py, index, today, v, seen, found, found') && Seen(py, vulns + [v], SeenAfter(py, v, seen))
    ensures Distinct(found'.missing) && Distinct(found'.expired)
    ensures forall k :: k in found'.missing <==> SeenAt(py, vulns + [v], k) && k !in index
    ensures forall k :: k in found'.expired <==> SeenAt(py, vulns + [v], k) && k in index && index[k].expiresOn < today
  {
    hide Relevant, VulnKey, SeverityOf, SeenAt, Wrong;
    assert forall k :: SeenAt(py, vulns + [v], k) <==> k in seen || (Fresh(py, v, seen) && k == VulnKey(py, v));
    assert VulnKey(py, v) !in seen ==> VulnKey(py, v) !in found.missing && VulnKey(py, v) !in found.expired;
  }

  lemma WrongGrows(py: Python, index: map<Key, Rule>, today: int, vulns: seq<Vuln>, v: Vuln, seen: set<Key>,
                   found: Findings, found': Findings, p: Problem)
    requires Seen(py, vulns, seen) && Reports(py, index, today, vulns, found)
    requires Notes(py, index, today, v, seen, found, found')
    ensures p in found'.errors <==> Wrong(py, index, vulns + [v], p)
  {
    hide Relevant, VulnKey, SeverityOf, Seen, SeenAt;
    assert p in found.errors <==> Wrong(py, index, vulns, p);
    var upTo, n := vulns + [v], |vulns|;
    forall j | 0 <= j < n
      ensures upTo[j] == vulns[j] && (First(py, upTo, j) <==> First(py, vulns, j))
    {
      FirstOfPrefix(py, vulns, [v], j);
    }
    assert upTo[n] == v;
    if Relevant(py, v) && VulnKey(py, v).advisory != "" {
      SeenOrFirst(py, vulns, v, seen);
    }
  }

  lemma NothingToCover(py: Python, index: map<Key, Rule>, today: int)
    ensures Seen(py, [], {}) && AllCovered(py, index, today, []) && Reports(py, index, today, [], CLEAN)
  {
  }

  /** seen: the keys of the relevant vulnerabilities that have an advisory id. */
  ghost predicate Seen(py: Python, vulns: seq<Vuln>, seen: set<Key>) {
    forall k :: k in seen <==> SeenAt(py, vulns, k)
  }

  ghost predicate SeenAt(py: Python, vulns: seq<Vuln>, k: Key) {
    k.advisory != "" && exists j :: 0 <= j < |vulns| && Relevant(py, vulns[j]) && VulnKey(py, vulns[j]) == k
  }

  /** seen holds the key of v already, or v is the first with its key. */
  lemma SeenOrFirst(py: Python, vulns: seq<Vuln>, v: Vuln, seen: set<Key>)
    requires Seen(py, vulns, seen) && Relevant(py, v) && VulnKey(py, v).advisory != ""
    ensures First(py, vulns + [v], |vulns|) <==> VulnKey(py, v) !in seen
  {
    hide Relevant, VulnKey;
    var upTo := vulns + [v];
    assert upTo[|vulns|] == v;
    assert forall j | 0 <= j < |vulns| :: upTo[j] == vulns[j];
    if VulnKey(py, v) in seen {
      var j :| 0 <= j < |vulns| && Relevant(py, vulns[j]) && VulnKey(py, vulns[j]) == VulnKey(py, v);
      assert Relevant(py, upTo[j]) && VulnKey(py, upTo[j]) == VulnKey(py, v);
    }
  }

  lemma SeenGrows(py: Python, vulns: seq<Vuln>, v: Vuln, seen: set<Key>)
    requires Seen(py, vulns, seen)
    ensures Seen(py, vulns + [v], SeenAfter(py, v, seen))
  {
    hide Relevant, VulnKey;
    var upTo, after := vulns + [v], SeenAfter(py, v, seen);
    forall k
      ensures k in after <==> SeenAt(py, upTo, k)
    {
      if SeenAt(py, vulns, k) {
        var j :| 0 <= j < |vulns| && Relevant(py, vulns[j]) && VulnKey(py, vulns[j]) == k;
        assert upTo[j] == vulns[j];
      }
      assert upTo[|vulns|] == v;
      assert forall j | 0 <= j < |vulns| :: upTo[j] == vulns[j];
    }
  }

  lemma FirstOfPrefix(py: Python, vulns: seq<Vuln>, more: seq<Vuln>, i: nat)
    requires i < |vulns|
    ensures First(py, vulns + more, i) <==> First(py, vulns, i)
  {
    hide Relevant, VulnKey;
    assert forall j | 0 <= j <= i :: (vulns + more)[j] == vulns[j];
  }

  /** How the condition grows by one vulnerability. */
  lemma CoveredGrows(py: Python, index: map<Key, Rule>, today: int, vulns: seq<Vuln>, v: Vuln, seen: set<Key>)
    requires Seen(py, vulns, seen)
    ensures AllCovered(py, index, today, vulns + [v]) <==>
            AllCovered(py, index, today, vulns) && Admits(py, index, today, v, seen)
  {
    hide Relevant, VulnKey, Permits, SeverityOf;
    var upTo, n := vulns + [v], |vulns|;
    forall j | 0 <= j < n
      ensures upTo[j] == vulns[j] && (First(py, upTo, j) <==> First(py, vulns, j))
    {
      FirstOfPrefix(py, vulns, [v], j);
    }
    assert upTo[n] == v;
    if Relevant(py, v) && VulnKey(py, v).advisory != "" {
      SeenOrFirst(py, vulns, v, seen);
    }
  }

  /** What the pass demands of one vulnerability. */
  ghost predicate Admits(py: Python, index: map<Key, Rule>, today: int, v: Vuln, seen: set<Key>) {
    Relevant(py, v) ==>
      && VulnKey(py, v).advisory != ""
      && (VulnKey(py, v) !in seen ==> Covered(py, index, today, v))
  }

  function SeenAfter(py: Python, v: Vuln, seen: set<Key>): set<Key> {
    if Relevant(py, v) && VulnKey(py, v).advisory != "" then seen + {VulnKey(py, v)} else seen
  }

  // ---------- the gate ----------

  datatype Outcome = Exit(code: int) | Raised

  /** main, from the lines of the exception file and the parsed report. */
  method Gate(py: Python, lines: seq<string>, audit: Json, today: int) returns (r: Outcome)
    ensures r == Exit(0) <==> Passes(py, Parsed(lines), Yielded(audit), today)
    ensures r == Raised <==> Parsed(lines).None? || Yielded(audit).None? || !Readable(py, Yielded(audit).value)
    ensures r == Exit(0) || r == Exit(1) || r == Raised
  {
    var exceptions := ParseExceptions(lines);
    if exceptions.None? {
      return Raised;
    }
    var index, errors := BuildIndex(py, exceptions.value);
    var vulns := IterVulns(audit);
    if vulns.None? {
      return Raised;
    }
    var found := CheckVulns(py, index, today, vulns.value);
    if found.None? {
      return Raised;
    }
    if errors + found.value.errors != [] || found.value.missing != [] || found.value.expired != [] {
      IndexIsRules(py, exceptions.value, index, vulns.value, today);
      return Exit(1);
    }
    IndexIsRules(py, exceptions.value, index, vulns.value, today);
    return Exit(0);
  }

  /** The rules of a list of records that is indexable. */
  function Rules(py: Python, records: seq<Record>): map<Key, Rule> {
    if records == [] then map[]
    else IndexAfter(py, records[|records| - 1], Rules(py, records[..|records| - 1]))
  }

  /** No severity makes normalize_severity raise. */
  ghost predicate Readable(py: Python, vulns: seq<Vuln>) {
    forall i | 0 <= i < |vulns| :: NormalizeSeverity(py, vulns[i].severity).Some?
  }

  /** The gate passes: nothing raises, the exceptions are indexable, and every vulnerability is covered by its rule. */
  ghost predicate Passes(py: Python, records: Option<seq<Record>>, vulns: Option<seq<Vuln>>, today: int) {
    && records.Some? && vulns.Some?
    && Readable(py, vulns.value)
    && Indexable(py, records.value)
    && AllCovered(py, Rules(py, records.value), today, vulns.value)
  }

  lemma {:induction false} RulesIndex(py: Python, records: seq<Record>)
    ensures Indexes(py, records, Rules(py, records))
  {
    if records != [] {
      var n := |records| - 1;
      RulesIndex(py, records[..n]);
      IndexGrows(py, records[..n], records[n], Rules(py, records[..n]));
      assert records[..n] + [records[n]] == records;
    }
  }

  lemma FirstUnique(py: Python, records: seq<Record>, k: Key, i: int, j: int)
    requires FirstWith(py, records, k, i) && FirstWith(py, records, k, j)
    ensures i == j
  {
  }

  lemma IndexUnique(py: Python, records: seq<Record>, a: map<Key, Rule>, b: map<Key, Rule>)
    requires Indexes(py, records, a) && Indexes(py, records, b)
    ensures a == b
  {
    hide WellFormed, KeyOf, RuleOf;
    forall k
      ensures k in a <==> k in b
    {
      IndexedWhenFound(py, records, a, k);
      IndexedWhenFound(py, records, b, k);
    }
    forall k | k in a && k in b
      ensures a[k] == b[k]
    {
      var i :| FirstWith(py, records, k, i) && a[k] == RuleOf(py, records[i]);
      var j :| FirstWith(py, records, k, j) && b[k] == RuleOf(py, records[j]);
      FirstUnique(py, records, k, i, j);
    }
  }

  lemma IndexedWhenFound(py: Python, records: seq<Record>, index: map<Key, Rule>, k: Key)
    requires Indexes(py, records, index)
    ensures k in index <==> exists i :: FirstWith(py, records, k, i)
  {
    hide WellFormed, KeyOf, RuleOf;
  }

  lemma IndexIsRules(py: Python, records: seq<Record>, index: map<Key, Rule>, vulns: seq<Vuln>, today: int)
    requires Indexes(py, records, index)
    ensures index == Rules(py, records)
  {
    RulesIndex(py, records);
    IndexUnique(py, records, index, Rules(py, records));
  }
}
