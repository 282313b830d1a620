/** The audit report: the JSON values Python sees, and the vulnerabilities iter_vulns yields from its two formats. */
module AuditReport {
  import opened Collections
  import opened AuditExceptions

  /** What json.load gives. Numbers and containers carry the text `str` would give for them. */
  datatype Json =
    | JNull
    | JBool(b: bool)
    | JNum(zero: bool, text: string)
    | JStr(s: string)
    | JArr(items: seq<Json>, repr: string)
    | JObj(fields: seq<(string, Json)>, repr: string)

  /** bool(x) */
  predicate Truthy(j: Json) {
    match j
    case JNull => false
    case JBool(b) => b
    case JNum(zero, _) => !zero
    case JStr(s) => s != ""
    case JArr(items, _) => items != []
    case JObj(fields, _) => fields != []
  }

  /** str(x) */
  function Text(j: Json): string {
    match j
    case JNull => "None"
    case JBool(b) => if b then "True" else "False"
    case JNum(_, text) => text
    case JStr(s) => s
    case JArr(_, repr) => repr
    case JObj(_, repr) => repr
  }

  /** d.get(key); the keys of a dictionary are distinct. */
  function Get(fields: seq<(string, Json)>, key: string): Json {
    if fields == [] then JNull else if fields[0].0 == key then fields[0].1 else Get(fields[1..], key)
  }

  /** a or b or ...: the first truthy operand, else the last one. */
  function Or(operands: seq<Json>): Json
    requires operands != []
  {
    if Truthy(operands[0]) || |operands| == 1 then operands[0] else Or(operands[1..])
  }

  /** (cves or [None])[0]; None where Python raises. */
  function FirstCve(cves: Json): Option<Json> {
    if !Truthy(cves) then Some(JNull)
    else match cves
      case JArr(items, _) => Some(items[0])
      case JStr(s) => Some(JStr([s[0]]))
      case _ => None
  }

  /** pick_advisory_id: the operands after `cves` are only looked at when those before are falsy. */
  function PickAdvisoryID(a: seq<(string, Json)>): Option<Json> {
    var direct := Or([Get(a, "github_advisory_id"), Get(a, "url")]);
    if Truthy(direct) then Some(direct)
    else match FirstCve(Get(a, "cves"))
      case None => None
      case Some(cve) =>
        var id := Get(a, "id");
        Some(Or([cve, if id == JNull then JNull else JStr(Text(id)),
                 Get(a, "title"), Get(a, "advisory"), Get(a, "overview")]))
  }

  /** What iter_vulns yields. */
  datatype Vuln = Vuln(name: Json, severity: Json, advisory: Json, title: Json)

  /** One entry of the `advisories` format; None where Python raises. */
  function FromAdvisory(j: Json): Option<Vuln> {
    match j
    case JObj(a, _) =>
      (match PickAdvisoryID(a)
       case None => None
       case Some(id) =>
         Some(Vuln(Or([Get(a, "module_name"), Get(a, "name")]), Get(a, "severity"), id,
                   Or([Get(a, "title"), Get(a, "advisory"), Get(a, "overview"), Get(a, "url")]))))
    case _ => None
  }

  /** The advisory and the title an element of `via` contributes, if it contributes any. */
  function ViaItem(item: Json): Option<(Json, Json)> {
    match item
    case JObj(v, _) =>
      Some((Or([Get(v, "github_advisory_id"), Get(v, "url"), Get(v, "source"), Get(v, "title"), Get(v, "name")]),
            Or([Get(v, "title"), Get(v, "url"), Get(v, "advisory"), Get(v, "source")])))
    case JStr(_) => Some((item, item))
    case _ => None
  }

  function ViaItems(items: seq<Json>): seq<(Json, Json)> {
    if items == [] then []
    else
      var before := ViaItems(items[..|items| - 1]);
      match ViaItem(items[|items| - 1]) case Some(p) => before + [p] case None => before
  }

  /** What `via` contributes: a list element by element, a string as one advisory, anything else nothing. */
  function Via(via: Json): seq<(Json, Json)> {
    match via
    case JArr(items, _) => ViaItems(items)
    case JStr(_) => [(via, via)]
    case _ => []
  }

  /** "; ".join raises when a title that is kept is not a string. */
  predicate TitlesJoin(contributed: seq<(Json, Json)>) {
    forall i | 0 <= i < |contributed| :: Truthy(contributed[i].1) ==> contributed[i].1.JStr?
  }

  /** "; ".join of the titles that are kept. */
  function JoinedTitles(contributed: seq<(Json, Json)>): string {
    if contributed == [] then ""
    else
      var before := JoinedTitles(contributed[..|contributed| - 1]);
      var title := contributed[|contributed| - 1].1;
      if !Truthy(title) then before
      else if before == "" then Text(title)
      else before + "; " + Text(title)
  }

  function Named(name: string, severity: Json, title: string, contributed: seq<(Json, Json)>): seq<Vuln> {
    if contributed == [] then []
    else
      var before := Named(name, severity, title, contributed[..|contributed| - 1]);
      var id := contributed[|contributed| - 1].0;
      if Truthy(id) then before + [Vuln(JStr(name), severity, id, JStr(title))] else before
  }

  /** One entry of the `vulnerabilities` format; None where Python raises. */
  function FromVulnerability(name: string, j: Json): Option<seq<Vuln>> {
    match j
    case JObj(v, _) =>
      var contributed := Via(Get(v, "via"));
      if !TitlesJoin(contributed) then None
      else Some(Named(name, Get(v, "severity"), JoinedTitles(contributed), contributed))
    case _ => None
  }

  function FromAdvisories(fields: seq<(string, Json)>): Option<seq<Vuln>> {
    if fields == [] then Some([])
    else match FromAdvisories(fields[..|fields| - 1])
      case None => None
      case Some(before) =>
        match FromAdvisory(fields[|fields| - 1].1) case None => None case Some(v) => Some(before + [v])
  }

  function FromVulnerabilities(fields: seq<(string, Json)>): Option<seq<Vuln>> {
    if fields == [] then Some([])
    else match FromVulnerabilities(fields[..|fields| - 1])
      case None => None
      case Some(before) =>
        match FromVulnerability(fields[|fields| - 1].0, fields[|fields| - 1].1)
        case None => None
        case Some(vs) => Some(before + vs)
  }

  /** All that iter_vulns yields, in order; None when it raises before the end. */
  function Yielded(data: Json): Option<seq<Vuln>> {
    match data
    case JObj(d, _) =>
      var first := match Get(d, "advisories") case JObj(a, _) => FromAdvisories(a) case _ => Some([]);
      var second := match Get(d, "vulnerabilities") case JObj(v, _) => FromVulnerabilities(v) case _ => Some([]);
      if first.None? || second.None? then None else Some(first.value + second.value)
    case _ => None
  }

  /** iter_vulns. */
  method IterVulns(data: Json) returns (r: Option<seq<Vuln>>)
    ensures r == Yielded(data)
  {
    if !data.JObj? {
      return None;
    }
    var first := IterAdvisories(Get(data.fields, "advisories"));
    if first.None? {
      return None;
    }
    var second := IterVulnerabilities(Get(data.fields, "vulnerabilities"));
    if second.None? {
      return None;
    }
    return Some(first.value + second.value);
  }

  method IterAdvisories(advisories: Json) returns (r: Option<seq<Vuln>>)
    ensures r == match advisories case JObj(a, _) => FromAdvisories(a) case _ => Some([])
  {
    var vulns := [];
    if advisories.JObj? {
      var entries := advisories.fields;
      for i := 0 to |entries|
        invariant FromAdvisories(entries[..i]) == Some(vulns)
      {
        assert entries[..i + 1][..i] == entries[..i];
        var v := FromAdvisory(entries[i].1);
        if v.None? {
          RaisesForGood(entries, i + 1);
          return None;
        }
        vulns := vulns + [v.value];
      }
      assert entries[..|entries|] == entries;
    }
    return Some(vulns);
  }

  method IterVulnerabilities(vulnerabilities: Json) returns (r: Option<seq<Vuln>>)
    ensures r == match vulnerabilities case JObj(v, _) => FromVulnerabilities(v) case _ => Some([])
  {
    hide Via, ViaItems, TitlesJoin, JoinedTitles, Named;
    var vulns := [];
    if vulnerabilities.JObj? {
      var entries := vulnerabilities.fields;
      for i := 0 to |entries|
        invariant FromVulnerabilities(entries[..i]) == Some(vulns)
      {
        assert entries[..i + 1][..i] == entries[..i];
        var (name, vuln) := entries[i];
        if !vuln.JObj? {
          RaisesForGood'(entries, i + 1);
          return None;
        }
        var contributed := CollectVia(Get(vuln.fields, "via"));
        if !TitlesJoin(contributed) {
          RaisesForGood'(entries, i + 1);
          return None;
        }
        var title := JoinedTitles(contributed);
        var named := YieldNamed(name, Get(vuln.fields, "severity"), title, contributed);
        vulns := vulns + named;
      }
      assert entries[..|entries|] == entries;
    }
    return Some(vulns);
  }

  /** The loop over `via`. */
  method CollectVia(via: Json) returns (contributed: seq<(Json, Json)>)
    ensures contributed == Via(via)
  {
    contributed := [];
    if via.JArr? {
      for i := 0 to |via.items|
        invariant contributed == ViaItems(via.items[..i])
      {
        assert via.items[..i + 1][..i] == via.items[..i];
        var p := ViaItem(via.items[i]);
        if p.Some? {
          contributed := contributed + [p.value];
        }
      }
      assert via.items[..|via.items|] == via.items;
    } else if via.JStr? {
      contributed := [(via, via)];
    }
  }

  /** The loop that yields one vulnerability per advisory that is truthy. */
  method YieldNamed(name: string, severity: Json, title: string, contributed: seq<(Json, Json)>) returns (vs: seq<Vuln>)
    ensures vs == Named(name, severity, title, contributed)
  {
    vs := [];
    for i := 0 to |contributed|
      invariant vs == Named(name, severity, title, contributed[..i])
    {
      assert contributed[..i + 1][..i] == contributed[..i];
      if Truthy(contributed[i].0) {
        vs := vs + [Vuln(JStr(name), severity, contributed[i].0, JStr(title))];
      }
    }
    assert contributed[..|contributed|] == contributed;
  }

  lemma {:induction false} RaisesForGood(fields: seq<(string, Json)>, k: nat)
    requires k <= |fields| && FromAdvisories(fields[..k]) == None
    ensures FromAdvisories(fields) == None
    decreases |fields|
  {
    if k < |fields| {
      assert fields[..|fields| - 1][..k] == fields[..k];
      RaisesForGood(fields[..|fields| - 1], k);
    } else {
      assert fields[..k] == fields;
    }
  }

  lemma {:induction false} RaisesForGood'(fields: seq<(string, Json)>, k: nat)
    requires k <= |fields| && FromVulnerabilities(fields[..k]) == None
    ensures FromVulnerabilities(fields) == None
    decreases |fields|
  {
    if k < |fields| {
      assert fields[..|fields| - 1][..k] == fields[..k];
      RaisesForGood'(fields[..|fields| - 1], k);
    } else {
      assert fields[..k] == fields;
    }
  }

  /** An entry of the `vulnerabilities` format yields exactly the advisories it contributes that are truthy. */
  lemma {:induction false} NamedMeaning(
    name: string, severity: Json, title: string, contributed: seq<(Json, Json)>, v: Vuln)
    ensures v in Named(name, severity, title, contributed) <==>
            v.name == JStr(name) && v.severity == severity && v.title == JStr(title) && Truthy(v.advisory)
            && exists i :: 0 <= i < |contributed| && contributed[i].0 == v.advisory
  {
    if contributed != [] {
      var n := |contributed| - 1;
      NamedMeaning(name, severity, title, contributed[..n], v);
      assert forall i | 0 <= i < n :: contributed[..n][i] == contributed[i];
    }
  }

  /** A chain of `or` gives its first truthy operand; only when there is none, the last. */
  lemma {:induction false} OrMeaning(operands: seq<Json>)
    requires operands != []
    ensures Truthy(Or(operands)) <==> exists i :: 0 <= i < |operands| && Truthy(operands[i])
    ensures forall i | 0 <= i < |operands| && Truthy(operands[i]) && (forall j | 0 <= j < i :: !Truthy(operands[j])) ::
              Or(operands) == operands[i]
    ensures !Truthy(Or(operands)) ==> Or(operands) == operands[|operands| - 1]
  {
    hide Truthy;
    if !Truthy(operands[0]) && |operands| > 1 {
      var rest := operands[1..];
      OrMeaning(rest);
      assert forall i | 0 < i < |operands| :: operands[i] == rest[i - 1];
    }
  }

  /** The entries of a member of the report that is a dictionary; any other member has none. */
  function EntriesOf(member: Json): seq<(string, Json)> {
    match member case JObj(entries, _) => entries case _ => []
  }

  /** The entries of each format in a report. */
  function Entries(data: Json, format: string): seq<(string, Json)> {
    if data.JObj? then EntriesOf(Get(data.fields, format)) else []
  }

  lemma YieldedByFormat(data: Json)
    requires data.JObj?
    ensures var first := FromAdvisories(Entries(data, "advisories"));
            var second := FromVulnerabilities(Entries(data, "vulnerabilities"));
            Yielded(data) == if first.None? || second.None? then None else Some(first.value + second.value)
  {
    hide FromAdvisory, FromVulnerability, Get;
  }
}
