/** The verdict of the gate in terms of the records, the day, and what it does not depend on. */
module AuditVerdict {
  import opened Collections
  import opened AuditExceptions
  import opened AuditReport
  import opened AuditGate

  // ---------- the verdict, without an index ----------

  /** r is the exception of v: same key. */
  predicate IsFor(py: Python, r: Record, v: Vuln) {
    WellFormed(py, r) && KeyOf(py, r) == VulnKey(py, v)
  }

  /** ... and it has not expired and is for the severity of v, or for none. */
  predicate Covers(py: Python, r: Record, today: int, v: Vuln) {
    IsFor(py, r, v) && Permits(RuleOf(py, r), today, SeverityOf(py, v))
  }

  /** Records that can be indexed are looked up by their keys. */
  lemma RulesOfIndexable(py: Python, records: seq<Record>, v: Vuln, today: int)
    requires Indexable(py, records)
    ensures VulnKey(py, v) in Rules(py, records) <==> exists r :: r in records && IsFor(py, r, v)
    ensures Covered(py, Rules(py, records), today, v) <==> exists r :: r in records && Covers(py, r, today, v)
  {
    RulesIndex(py, records);
    var index, k := Rules(py, records), VulnKey(py, v);
    hide WellFormed, KeyOf, RuleOf, VulnKey, SeverityOf, Permits, Rules;
    forall r | r in records && IsFor(py, r, v)
      ensures k in index && index[k] == RuleOf(py, r)
    {
      var i :| 0 <= i < |records| && records[i] == r;
      var j :| FirstWith(py, records, k, j) && index[k] == RuleOf(py, records[j]);
      assert KeyOf(py, records[i]) == KeyOf(py, records[j]);
    }
    if k in index {
      var j :| FirstWith(py, records, k, j) && index[k] == RuleOf(py, records[j]);
      assert records[j] in records && IsFor(py, records[j], v);
    }
  }

  /** The gate passes iff nothing raises, the records are complete, dated, not blank and distinct by key, every relevant
    * vulnerability has an advisory id and an exception, and the first with each key is covered by its exception.
    */
  lemma PassesMeaning(py: Python, records: seq<Record>, vulns: seq<Vuln>, today: int)
    ensures Passes(py, Some(records), Some(vulns), today) <==>
            && Readable(py, vulns) && Indexable(py, records)
            && (forall i | 0 <= i < |vulns| && Relevant(py, vulns[i]) ::
                  VulnKey(py, vulns[i]).advisory != "" && exists r :: r in records && IsFor(py, r, vulns[i]))
            && (forall i | 0 <= i < |vulns| && First(py, vulns, i) ::
                  exists r :: r in records && Covers(py, r, today, vulns[i]))
  {
    hide Relevant, VulnKey, Covered, IsFor, Covers, Rules, NormalizeSeverity, Indexable, First;
    if Indexable(py, records) {
      forall i | 0 <= i < |vulns|
        ensures VulnKey(py, vulns[i]) in Rules(py, records) <==> exists r :: r in records && IsFor(py, r, vulns[i])
        ensures Covered(py, Rules(py, records), today, vulns[i]) <==>
                exists r :: r in records && Covers(py, r, today, vulns[i])
      {
        RulesOfIndexable(py, records, vulns[i], today);
      }
    }
  }

  // ---------- the day ----------

  /** Once the gate passes on some day, it passes on exactly the days up to the first expiry it relied on. */
  lemma PassesUntilTheFirstExpiry(py: Python, records: seq<Record>, vulns: seq<Vuln>, someDay: int, today: int)
    requires Passes(py, Some(records), Some(vulns), someDay)
    ensures var index := Rules(py, records);
            Passes(py, Some(records), Some(vulns), today) <==>
            forall i | 0 <= i < |vulns| && First(py, vulns, i) && VulnKey(py, vulns[i]) in index ::
              today <= index[VulnKey(py, vulns[i])].expiresOn
  {
    hide Relevant, VulnKey, SeverityOf, Indexable, Rules, NormalizeSeverity;
  }

  /** Time only turns a pass into a failure. */
  lemma PassesEarlier(py: Python, records: Option<seq<Record>>, vulns: Option<seq<Vuln>>, today: int, later: int)
    requires today <= later && Passes(py, records, vulns, later)
    ensures Passes(py, records, vulns, today)
  {
    hide Relevant, VulnKey, SeverityOf, Indexable, Rules, NormalizeSeverity;
    PassesUntilTheFirstExpiry(py, records.value, vulns.value, later, later);
    PassesUntilTheFirstExpiry(py, records.value, vulns.value, later, today);
  }

  // ---------- an exception nobody needs ----------

  lemma RulesSnoc(py: Python, s: seq<Record>, r: Record)
    ensures Rules(py, s + [r]) == IndexAfter(py, r, Rules(py, s))
  {
    hide IndexAfter;
    assert (s + [r])[..|s|] == s;
  }

  lemma {:induction false} RulesWithOneMore(py: Python, a: seq<Record>, r: Record, b: seq<Record>)
    requires WellFormed(py, r) && forall s | s in a + b :: KeyOf(py, s) != KeyOf(py, r)
    ensures KeyOf(py, r) !in Rules(py, a + b)
    ensures Rules(py, a + [r] + b) == Rules(py, a + b)[KeyOf(py, r) := RuleOf(py, r)]
  {
    hide WellFormed, KeyOf, RuleOf, Rules;
    KeyIsNew(py, a + b, KeyOf(py, r));
    if b == [] {
      assert a + b == a && a + [r] + b == a + [r];
      RulesSnoc(py, a, r);
    } else {
      var n := |b| - 1;
      var last := b[n];
      assert a + b == (a + b[..n]) + [last] && a + [r] + b == (a + [r] + b[..n]) + [last];
      assert last in a + b && forall s | s in a + b[..n] :: s in a + b;
      RulesWithOneMore(py, a, r, b[..n]);
      RulesSnoc(py, a + b[..n], last);
      RulesSnoc(py, a + [r] + b[..n], last);
    }
  }

  lemma {:induction false} KeyIsNew(py: Python, records: seq<Record>, k: Key)
    requires forall s | s in records :: KeyOf(py, s) != k
    ensures k !in Rules(py, records)
  {
    hide WellFormed, KeyOf, RuleOf;
    if records != [] {
      assert records[|records| - 1] in records;
      KeyIsNew(py, records[..|records| - 1], k);
    }
  }

  lemma IndexableWithOneMore(py: Python, a: seq<Record>, r: Record, b: seq<Record>)
    requires WellFormed(py, r) && forall s | s in a + b :: KeyOf(py, s) != KeyOf(py, r)
    ensures Indexable(py, a + [r] + b) <==> Indexable(py, a + b)
  {
    hide WellFormed, KeyOf;
    var s, t := a + b, a + [r] + b;
    assert forall i | 0 <= i < |a| :: t[i] == s[i] && s[i] in a + b;
    assert forall i | |a| <= i < |s| :: t[i + 1] == s[i] && s[i] in a + b;
    assert t[|a|] == r;
    assert forall i | |a| < i < |t| :: t[i] == s[i - 1];
  }

  /** A well-formed exception for a key nothing uses and no record holds changes no verdict, wherever it is added. */
  lemma UnusedExceptionChangesNothing(
    py: Python, a: seq<Record>, r: Record, b: seq<Record>, vulns: Option<seq<Vuln>>, today: int)
    requires WellFormed(py, r) && forall s | s in a + b :: KeyOf(py, s) != KeyOf(py, r)
    requires vulns.Some? ==> forall v | v in vulns.value && Relevant(py, v) :: VulnKey(py, v) != KeyOf(py, r)
    ensures Passes(py, Some(a + [r] + b), vulns, today) <==> Passes(py, Some(a + b), vulns, today)
  {
    hide WellFormed, KeyOf, RuleOf, Relevant, VulnKey, SeverityOf, NormalizeSeverity, Indexable, Permits;
    RulesWithOneMore(py, a, r, b);
    IndexableWithOneMore(py, a, r, b);
    if vulns.Some? {
      assert forall i | 0 <= i < |vulns.value| :: vulns.value[i] in vulns.value;
    }
  }

  // ---------- a vulnerability the gate never sees ----------

  /** An entry of the `vulnerabilities` format whose `via` names no advisory yields nothing: it is never checked. */
  lemma NamelessEntryIsNotChecked(before: seq<(string, Json)>, name: string, entry: Json, after: seq<(string, Json)>)
    requires entry.JObj? && TitlesJoin(Via(Get(entry.fields, "via")))
    requires forall p | p in Via(Get(entry.fields, "via")) :: !Truthy(p.0)
    ensures FromVulnerabilities(before + [(name, entry)] + after) == FromVulnerabilities(before + after)
  {
    hide Via, FromVulnerability, FromVulnerabilities;
    if after == [] {
      NothingYielded(name, entry);
      assert before + [(name, entry)] + after == before + [(name, entry)] && before + after == before;
      FromVulnerabilitiesSnoc(before, (name, entry));
      assert forall vs: seq<Vuln> :: vs + [] == vs;
    } else {
      var n := |after| - 1;
      NamelessEntryIsNotChecked(before, name, entry, after[..n]);
      var s, t := before + [(name, entry)] + after[..n], before + after[..n];
      assert before + [(name, entry)] + after == s + [after[n]] && before + after == t + [after[n]];
      FromVulnerabilitiesSnoc(s, after[n]);
      FromVulnerabilitiesSnoc(t, after[n]);
    }
  }

  lemma FromVulnerabilitiesSnoc(s: seq<(string, Json)>, e: (string, Json))
    ensures FromVulnerabilities(s + [e]) ==
            match FromVulnerabilities(s)
            case None => None
            case Some(vs) =>
              match FromVulnerability(e.0, e.1) case None => None case Some(more) => Some(vs + more)
  {
    hide FromVulnerability;
    assert (s + [e])[..|s|] == s;
  }

  lemma NothingYielded(name: string, entry: Json)
    requires entry.JObj? && TitlesJoin(Via(Get(entry.fields, "via")))
    requires forall p | p in Via(Get(entry.fields, "via")) :: !Truthy(p.0)
    ensures FromVulnerability(name, entry) == Some([])
  {
    hide Via, TitlesJoin, JoinedTitles, Truthy;
    var contributed := Via(Get(entry.fields, "via"));
    NamedNothing(name, Get(entry.fields, "severity"), JoinedTitles(contributed), contributed);
  }

  lemma {:induction false} NamedNothing(name: string, severity: Json, title: string, contributed: seq<(Json, Json)>)
    requires forall p | p in contributed :: !Truthy(p.0)
    ensures Named(name, severity, title, contributed) == []
  {
    if contributed != [] {
      var n := |contributed| - 1;
      assert contributed[n] in contributed && forall p | p in contributed[..n] :: p in contributed;
      NamedNothing(name, severity, title, contributed[..n]);
    }
  }

  // ---------- what is compared ----------

  /** The five fields a record must have. */
  lemma CompleteMeaning(r: Record)
    ensures Complete(r) <==>
            && Field(r, "package") != "" && Field(r, "advisory") != "" && Field(r, "severity") != ""
            && Field(r, "mitigation") != "" && Field(r, "expires_on") != ""
    ensures forall field :: Field(r, field) != "" <==> field in r && r[field] != ""
  {
    assert REQUIRED[0] == "package" && REQUIRED[1] == "advisory" && REQUIRED[2] == "severity";
    assert REQUIRED[3] == "mitigation" && REQUIRED[4] == "expires_on";
    hide Field;
  }

  /** A vulnerability is looked at when it has a name and its severity, stripped and in lower case, is one of two. */
  lemma RelevantMeaning(py: Python, v: Vuln)
    ensures NormalizeSeverity(py, v.severity).Some? <==> !Truthy(v.severity) || v.severity.JStr?
    ensures Truthy(v.severity) && v.severity.JStr? ==> SeverityOf(py, v) == py.lower(Strip(v.severity.s))
    ensures !Truthy(v.severity) ==> SeverityOf(py, v) == py.lower("")
    ensures Relevant(py, v) <==>
            && Truthy(v.name) && (!Truthy(v.severity) || v.severity.JStr?)
            && (SeverityOf(py, v) == "high" || SeverityOf(py, v) == "critical")
  {
  }

  /** Packages are compared stripped, advisories stripped and in lower case; a missing name or advisory is empty. */
  lemma KeysAgreeIff(py: Python, r: Record, v: Vuln)
    ensures KeyOf(py, r) == VulnKey(py, v) <==>
            && Strip(Field(r, "package")) == (if v.name == JNull then "" else Strip(Text(v.name)))
            && py.lower(Strip(Field(r, "advisory")))
            == if v.advisory == JNull then "" else py.lower(Strip(Text(v.advisory)))
    ensures VulnKey(py, v).advisory != "" <==> v.advisory != JNull && py.lower(Strip(Text(v.advisory))) != ""
  {
  }

  /** When a record covers a vulnerability. */
  lemma CoversMeaning(py: Python, r: Record, today: int, v: Vuln)
    ensures Covers(py, r, today, v) <==>
            && Complete(r) && Strip(Field(r, "package")) != "" && py.lower(Strip(Field(r, "advisory"))) != ""
            && KeyOf(py, r) == VulnKey(py, v)
            && py.fromIso(Field(r, "expires_on")).Some? && today <= py.fromIso(Field(r, "expires_on")).value
            && py.lower(Strip(Field(r, "severity"))) in ["", SeverityOf(py, v)]
  {
    hide Complete, Field, VulnKey, SeverityOf;
  }
}
