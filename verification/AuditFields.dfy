/** What the audit report yields, key by key: which keys name, rate and identify a vulnerability, and in what order. */
module AuditFields {
  import opened Collections
  import opened AuditExceptions
  import opened AuditReport

  // ---------- Python's values ----------

  /** Only None, False, 0 and what is empty are falsy. */
  lemma TruthyMeaning(j: Json)
    ensures !Truthy(j) <==>
            || j == JNull || j == JBool(false) || (j.JNum? && j.zero) || j == JStr("")
            || (j.JArr? && |j.items| == 0) || (j.JObj? && |j.fields| == 0)
  {
  }

  /** str: a string is itself, numbers and containers their text. */
  lemma TextMeaning(j: Json)
    ensures j.JStr? ==> Text(j) == j.s
    ensures j.JNum? ==> Text(j) == j.text
    ensures j.JArr? || j.JObj? ==> Text(j) == j.repr
    ensures Text(JNull) == "None" && Text(JBool(true)) == "True" && Text(JBool(false)) == "False"
  {
  }

  /** d.get(key) is the value of the key, or None. */
  lemma {:induction false} GetMeaning(fields: seq<(string, Json)>, key: string)
    ensures (forall i | 0 <= i < |fields| :: fields[i].0 != key) ==> Get(fields, key) == JNull
    ensures forall i | 0 <= i < |fields| && fields[i].0 == key && (forall j | 0 <= j < i :: fields[j].0 != key) ::
              Get(fields, key) == fields[i].1
  {
    if fields != [] && fields[0].0 != key {
      GetMeaning(fields[1..], key);
      assert forall i | 0 < i < |fields| :: fields[i] == fields[1..][i - 1];
    }
  }

  // ---------- the advisories format ----------

  /** x or y */
  function Either(x: Json, y: Json): Json {
    if Truthy(x) then x else y
  }

  /** The first CVE of a list, the first character of a string, None if there is none. */
  function CveOf(cves: Json): Json {
    if !Truthy(cves) then JNull
    else match cves case JArr(items, _) => items[0] case JStr(s) => JStr(s[..1]) case _ => JNull
  }

  /** The text of an id, None if it has none. */
  function IdText(id: Json): Json {
    if id == JNull then JNull else JStr(Text(id))
  }

  /** The name, severity, id and title that an advisory gives. */
  function AdvisoryVuln(a: seq<(string, Json)>): Vuln {
    var id :=
      Either(Get(a, "github_advisory_id"),
             Either(Get(a, "url"),
                    Either(CveOf(Get(a, "cves")),
                           Either(IdText(Get(a, "id")),
                                  Either(Get(a, "title"), Either(Get(a, "advisory"), Get(a, "overview")))))));
    var title := Either(Get(a, "title"), Either(Get(a, "advisory"), Either(Get(a, "overview"), Get(a, "url"))));
    Vuln(Either(Get(a, "module_name"), Get(a, "name")), Get(a, "severity"), id, title)
  }

  /** An advisory makes Python raise when it is no dictionary, or when its `cves` are looked at and have no item 0. */
  predicate AdvisoryRaises(j: Json) {
    || !j.JObj?
    || (&& !Truthy(Get(j.fields, "github_advisory_id")) && !Truthy(Get(j.fields, "url"))
        && Truthy(Get(j.fields, "cves")) && !Get(j.fields, "cves").JArr? && !Get(j.fields, "cves").JStr?)
  }

  lemma AdvisoryMeaning(j: Json)
    ensures FromAdvisory(j) == if AdvisoryRaises(j) then None else Some(AdvisoryVuln(j.fields))
  {
    if j.JObj? {
      var a := j.fields;
      OrTwo(Get(a, "module_name"), Get(a, "name"));
      OrTwo(Get(a, "github_advisory_id"), Get(a, "url"));
      OrFour(Get(a, "title"), Get(a, "advisory"), Get(a, "overview"), Get(a, "url"));
      OrFive(CveOf(Get(a, "cves")), IdText(Get(a, "id")), Get(a, "title"), Get(a, "advisory"), Get(a, "overview"));
      assert Get(a, "cves").JStr? && Get(a, "cves").s != "" ==> Get(a, "cves").s[..1] == [Get(a, "cves").s[0]];
      hide Get, Truthy, Or, Text;
    }
  }

  lemma OrTwo(a: Json, b: Json)
    ensures Or([a, b]) == Either(a, b)
  {
    assert [a, b][1..] == [b];
  }

  lemma OrFour(a: Json, b: Json, c: Json, d: Json)
    ensures Or([a, b, c, d]) == Either(a, Either(b, Either(c, d)))
  {
    hide Truthy;
    OrTwo(c, d);
    assert [a, b, c, d][1..] == [b, c, d] && [b, c, d][1..] == [c, d];
    assert Or([b, c, d]) == Either(b, Or([c, d]));
  }

  lemma OrFive(a: Json, b: Json, c: Json, d: Json, e: Json)
    ensures Or([a, b, c, d, e]) == Either(a, Either(b, Either(c, Either(d, e))))
  {
    hide Truthy;
    OrFour(b, c, d, e);
    assert [a, b, c, d, e][1..] == [b, c, d, e];
  }

  function AdvisoryVulns(entries: seq<(string, Json)>): (vs: seq<Vuln>)
    requires forall e | e in entries :: e.1.JObj?
    ensures |vs| == |entries| && forall i | 0 <= i < |entries| :: vs[i] == AdvisoryVuln(entries[i].1.fields)
  {
    seq(|entries|, i requires 0 <= i < |entries| && entries[i] in entries => AdvisoryVuln(entries[i].1.fields))
  }

  lemma {:induction false} AdvisoriesInOrder(entries: seq<(string, Json)>)
    ensures (exists e :: e in entries && AdvisoryRaises(e.1)) ==> FromAdvisories(entries) == None
    ensures (forall e | e in entries :: !AdvisoryRaises(e.1)) ==>
              && (forall e | e in entries :: e.1.JObj?)
              && FromAdvisories(entries) == Some(AdvisoryVulns(entries))
  {
    forall e | e in entries && !AdvisoryRaises(e.1)
      ensures e.1.JObj?
    {
    }
    hide AdvisoryVuln, FromAdvisory, AdvisoryRaises;
    if entries != [] {
      var n := |entries| - 1;
      AdvisoriesInOrder(entries[..n]);
      AdvisoryMeaning(entries[n].1);
      assert entries == entries[..n] + [entries[n]];
      if forall e | e in entries :: !AdvisoryRaises(e.1) {
        assert !AdvisoryRaises(entries[n].1);
        assert AdvisoryVulns(entries) == AdvisoryVulns(entries[..n]) + [AdvisoryVuln(entries[n].1.fields)];
      }
    }
  }

  // ---------- the vulnerabilities format ----------

  /** The advisory an element of `via` gives: by key from a dictionary, a string is one itself. */
  function ItemAdvisory(item: Json): Json {
    match item
    case JObj(v, _) =>
      Either(Get(v, "github_advisory_id"),
             Either(Get(v, "url"), Either(Get(v, "source"), Either(Get(v, "title"), Get(v, "name")))))
    case JStr(_) => item
    case _ => JNull
  }

  function ItemTitle(item: Json): Json {
    match item
    case JObj(v, _) =>
      Either(Get(v, "title"), Either(Get(v, "url"), Either(Get(v, "advisory"), Get(v, "source"))))
    case JStr(_) => item
    case _ => JNull
  }

  /** The elements of `via`: those of a list, or a string alone. */
  function ItemsOf(via: Json): seq<Json> {
    match via case JArr(items, _) => items case JStr(_) => [via] case _ => []
  }

  /** A title that is kept but is not a string makes "; ".join raise. */
  predicate ItemsRaise(items: seq<Json>) {
    exists item | item in items :: Truthy(ItemTitle(item)) && !ItemTitle(item).JStr?
  }

  function TitleParts(items: seq<Json>): seq<string> {
    if items == [] then []
    else (if Truthy(ItemTitle(items[0])) then [Text(ItemTitle(items[0]))] else []) + TitleParts(items[1..])
  }

  function Join(parts: seq<string>): string {
    if parts == [] then "" else if |parts| == 1 then parts[0] else parts[0] + "; " + Join(parts[1..])
  }

  /** One vulnerability for every truthy advisory, in the order of the elements. */
  function ItemVulns(name: string, severity: Json, title: string, items: seq<Json>): seq<Vuln> {
    if items == [] then []
    else
      (if Truthy(ItemAdvisory(items[0])) then [Vuln(JStr(name), severity, ItemAdvisory(items[0]), JStr(title))] else [])
      + ItemVulns(name, severity, title, items[1..])
  }

  function EntryVulns(name: string, v: seq<(string, Json)>): seq<Vuln> {
    var items := ItemsOf(Get(v, "via"));
    ItemVulns(name, Get(v, "severity"), Join(TitleParts(items)), items)
  }

  predicate EntryRaises(j: Json) {
    !j.JObj? || ItemsRaise(ItemsOf(Get(j.fields, "via")))
  }

  lemma ItemMeaning(item: Json)
    ensures ViaItem(item) == if item.JObj? || item.JStr? then Some((ItemAdvisory(item), ItemTitle(item))) else None
  {
    if item.JObj? {
      var v := item.fields;
      OrFive(Get(v, "github_advisory_id"), Get(v, "url"), Get(v, "source"), Get(v, "title"), Get(v, "name"));
      OrFour(Get(v, "title"), Get(v, "url"), Get(v, "advisory"), Get(v, "source"));
      hide Get, Truthy, Or;
    }
  }

  lemma {:induction false} TitlePartsSnoc(items: seq<Json>, x: Json)
    ensures TitleParts(items + [x]) == TitleParts(items) + TitleParts([x])
    ensures TitleParts([x]) == if Truthy(ItemTitle(x)) then [Text(ItemTitle(x))] else []
  {
    hide ItemTitle, Truthy, Text;
    if items != [] {
      TitlePartsSnoc(items[1..], x);
      assert (items + [x])[0] == items[0] && (items + [x])[1..] == items[1..] + [x];
    } else {
      assert items + [x] == [x] && TitleParts([]) == [];
    }
  }

  lemma {:induction false} JoinSnoc(parts: seq<string>, p: string)
    requires "" !in parts
    ensures Join(parts + [p]) == if parts == [] then p else Join(parts) + "; " + p
    ensures Join(parts) == "" <==> parts == []
  {
    if |parts| > 0 {
      JoinSnoc(parts[1..], p);
      assert (parts + [p])[0] == parts[0] && (parts + [p])[1..] == parts[1..] + [p];
      assert |parts| == 1 ==> parts[1..] == [];
    } else {
      assert parts + [p] == [p];
    }
  }

  lemma {:induction false} ItemVulnsSnoc(name: string, severity: Json, title: string, items: seq<Json>, x: Json)
    ensures ItemVulns(name, severity, title, items + [x])
         == ItemVulns(name, severity, title, items) + ItemVulns(name, severity, title, [x])
    ensures ItemVulns(name, severity, title, [x])
         == if Truthy(ItemAdvisory(x)) then [Vuln(JStr(name), severity, ItemAdvisory(x), JStr(title))] else []
  {
    hide ItemAdvisory, Truthy;
    if items != [] {
      ItemVulnsSnoc(name, severity, title, items[1..], x);
      assert (items + [x])[0] == items[0] && (items + [x])[1..] == items[1..] + [x];
    } else {
      assert items + [x] == [x] && ItemVulns(name, severity, title, []) == [];
    }
  }

  lemma ItemsRaiseSnoc(items: seq<Json>, x: Json)
    ensures ItemsRaise(items + [x]) <==> ItemsRaise(items) || (Truthy(ItemTitle(x)) && !ItemTitle(x).JStr?)
  {
    hide ItemTitle, Truthy;
    assert forall item :: item in items + [x] <==> item in items || item == x;
  }

  /** The titles that the loop over `via` collects are joined as they come. */
  lemma {:induction false} TitlesMeaning(items: seq<Json>)
    ensures TitlesJoin(ViaItems(items)) <==> !ItemsRaise(items)
    ensures !ItemsRaise(items) ==>
              "" !in TitleParts(items) && JoinedTitles(ViaItems(items)) == Join(TitleParts(items))
  {
    if items != [] {
      var n := |items| - 1;
      var x, before := items[n], items[..n];
      assert items == before + [x];
      TitlesMeaning(before);
      ItemMeaning(x);
      TitlePartsSnoc(before, x);
      ItemsRaiseSnoc(before, x);
      ViaSnoc("", JNull, "", ViaItems(before), ItemAdvisory(x), ItemTitle(x));
      assert !(x.JObj? || x.JStr?) ==> !Truthy(ItemTitle(x));
      assert Truthy(ItemTitle(x)) && ItemTitle(x).JStr? ==> Text(ItemTitle(x)) != "";
      hide ItemAdvisory, ItemTitle, ViaItem, TitlesJoin, JoinedTitles, Named, TitleParts, Join, ItemsRaise;
      hide Truthy, Text;
      if !ItemsRaise(items) {
        JoinSnoc(TitleParts(before), Text(ItemTitle(x)));
        assert TitleParts(before) + [] == TitleParts(before);
      }
    }
  }

  /** The vulnerabilities of an entry come in the order of the elements of `via`. */
  lemma {:induction false} ItemsInOrder(name: string, severity: Json, title: string, items: seq<Json>)
    ensures Named(name, severity, title, ViaItems(items)) == ItemVulns(name, severity, title, items)
  {
    if items != [] {
      var n := |items| - 1;
      var x, before := items[n], items[..n];
      assert items == before + [x];
      ItemsInOrder(name, severity, title, before);
      ItemMeaning(x);
      ItemVulnsSnoc(name, severity, title, before, x);
      ViaSnoc(name, severity, title, ViaItems(before), ItemAdvisory(x), ItemTitle(x));
      assert !(x.JObj? || x.JStr?) ==> !Truthy(ItemAdvisory(x));
      hide ItemAdvisory, ItemTitle, ViaItem, TitlesJoin, JoinedTitles, Named, ItemVulns, Truthy;
      assert ItemVulns(name, severity, title, before) + [] == ItemVulns(name, severity, title, before);
    }
  }

  lemma ViaSnoc(name: string, severity: Json, title: string, c: seq<(Json, Json)>, advisory: Json, t: Json)
    ensures TitlesJoin(c + [(advisory, t)]) <==> TitlesJoin(c) && (Truthy(t) ==> t.JStr?)
    ensures JoinedTitles(c + [(advisory, t)]) ==
            if !Truthy(t) then JoinedTitles(c)
            else if JoinedTitles(c) == "" then Text(t)
            else JoinedTitles(c) + "; " + Text(t)
    ensures Named(name, severity, title, c + [(advisory, t)]) ==
            Named(name, severity, title, c)
            + if Truthy(advisory) then [Vuln(JStr(name), severity, advisory, JStr(title))] else []
  {
    hide Truthy, Text;
    var more := c + [(advisory, t)];
    assert more[..|c|] == c && more[|c|] == (advisory, t);
    assert forall i | 0 <= i < |c| :: more[i] == c[i];
  }

  /** A string is its own only element. */
  lemma ViaIsItems(via: Json)
    ensures Via(via) == ViaItems(ItemsOf(via))
  {
    if via.JStr? {
      assert [via][..0] == [] && ViaItems([]) == [];
      assert ViaItems([via]) == [(via, via)];
    }
  }

  lemma EntryMeaning(name: string, j: Json)
    ensures FromVulnerability(name, j) == if EntryRaises(j) then None else Some(EntryVulns(name, j.fields))
  {
    if j.JObj? {
      var via, severity := Get(j.fields, "via"), Get(j.fields, "severity");
      ViaIsItems(via);
      TitlesMeaning(ItemsOf(via));
      ItemsInOrder(name, severity, Join(TitleParts(ItemsOf(via))), ItemsOf(via));
      hide ItemsRaise, TitlesJoin, JoinedTitles, Named, ItemVulns, TitleParts, Join, Get, Via, ViaItems, ItemsOf;
    }
  }

  function AllEntryVulns(entries: seq<(string, Json)>): seq<Vuln>
    requires forall e | e in entries :: e.1.JObj?
  {
    if entries == [] then []
    else
      assert entries[0] in entries;
      EntryVulns(entries[0].0, entries[0].1.fields) + AllEntryVulns(entries[1..])
  }

  lemma {:induction false} AllEntryVulnsSnoc(entries: seq<(string, Json)>, e: (string, Json))
    requires e.1.JObj? && forall d | d in entries :: d.1.JObj?
    ensures AllEntryVulns(entries + [e]) == AllEntryVulns(entries) + EntryVulns(e.0, e.1.fields)
  {
    hide EntryVulns;
    if entries == [] {
      assert entries + [e] == [e] && [e][1..] == [] && AllEntryVulns([]) == [];
    } else {
      assert entries[0] in entries;
      AllEntryVulnsSnoc(entries[1..], e);
      assert (entries + [e])[0] == entries[0] && (entries + [e])[1..] == entries[1..] + [e];
    }
  }

  lemma {:induction false} VulnerabilitiesInOrder(entries: seq<(string, Json)>)
    ensures FromVulnerabilities(entries) ==
            if exists e :: e in entries && EntryRaises(e.1) then None else Some(AllEntryVulns(entries))
  {
    hide EntryVulns, FromVulnerability, ItemsRaise, Get, ItemsOf;
    if entries != [] {
      var n := |entries| - 1;
      VulnerabilitiesInOrder(entries[..n]);
      EntryMeaning(entries[n].0, entries[n].1);
      assert entries == entries[..n] + [entries[n]];
      if !exists e :: e in entries && EntryRaises(e.1) {
        assert !EntryRaises(entries[n].1);
        AllEntryVulnsSnoc(entries[..n], entries[n]);
      }
    }
  }

  // ---------- the report ----------

  ghost predicate ReportRaises(data: Json) {
    || !data.JObj?
    || (exists e :: e in Entries(data, "advisories") && AdvisoryRaises(e.1))
    || (exists e :: e in Entries(data, "vulnerabilities") && EntryRaises(e.1))
  }

  /** All that a report yields: one vulnerability per advisory, then those of the entries of the other format. */
  lemma YieldedInOrder(data: Json)
    ensures Yielded(data).None? <==> ReportRaises(data)
    ensures Yielded(data).Some? ==>
              && (forall e | e in Entries(data, "advisories") || e in Entries(data, "vulnerabilities") :: e.1.JObj?)
              && Yielded(data).value
              == AdvisoryVulns(Entries(data, "advisories")) + AllEntryVulns(Entries(data, "vulnerabilities"))
  {
    if data.JObj? {
      YieldedByFormat(data);
      AdvisoriesInOrder(Entries(data, "advisories"));
      VulnerabilitiesInOrder(Entries(data, "vulnerabilities"));
      hide Entries, Get, AdvisoryVulns, AllEntryVulns, Yielded, ItemsRaise, Truthy;
    }
  }

  // ---------- membership ----------

  ghost predicate AdvisoryGives(entries: seq<(string, Json)>, v: Vuln) {
    exists e :: e in entries && e.1.JObj? && v == AdvisoryVuln(e.1.fields)
  }

  /** Some entry has an element with this advisory; its name, severity and titles are those of the entry. */
  ghost predicate EntryGives(entries: seq<(string, Json)>, v: Vuln) {
    exists e, item :: e in entries && e.1.JObj? && ItemGives(e.0, e.1.fields, item, v)
  }

  ghost predicate ItemGives(name: string, entry: seq<(string, Json)>, item: Json, v: Vuln) {
    var items := ItemsOf(Get(entry, "via"));
    && item in items && v.advisory == ItemAdvisory(item) && Truthy(v.advisory)
    && v.name == JStr(name) && v.severity == Get(entry, "severity") && v.title == JStr(Join(TitleParts(items)))
  }

  lemma {:induction false} ItemVulnsMembers(
    name: string, severity: Json, title: string, items: seq<Json>, v: Vuln)
    ensures v in ItemVulns(name, severity, title, items) <==>
            && v.name == JStr(name) && v.severity == severity && v.title == JStr(title) && Truthy(v.advisory)
            && exists item :: item in items && v.advisory == ItemAdvisory(item)
  {
    hide ItemAdvisory, Truthy;
    if items != [] {
      ItemVulnsMembers(name, severity, title, items[1..], v);
      assert items == [items[0]] + items[1..];
    }
  }

  lemma EntryVulnsMembers(name: string, entry: seq<(string, Json)>, v: Vuln)
    ensures v in EntryVulns(name, entry) <==> exists item :: ItemGives(name, entry, item, v)
  {
    var items := ItemsOf(Get(entry, "via"));
    ItemVulnsMembers(name, Get(entry, "severity"), Join(TitleParts(items)), items, v);
    hide ItemsOf, Get, ItemAdvisory, Truthy, Join, TitleParts, ItemVulns;
    if item :| item in items && v.advisory == ItemAdvisory(item) {
      assert v in EntryVulns(name, entry) ==> ItemGives(name, entry, item, v);
    }
  }

  lemma {:induction false} AllEntryVulnsMembers(entries: seq<(string, Json)>, v: Vuln)
    requires forall e | e in entries :: e.1.JObj?
    ensures v in AllEntryVulns(entries) <==> EntryGives(entries, v)
  {
    hide EntryVulns, ItemGives;
    if entries != [] {
      var e, rest := entries[0], entries[1..];
      assert entries == [e] + rest;
      AllEntryVulnsMembers(rest, v);
      EntryVulnsMembers(e.0, e.1.fields, v);
      assert e in entries;
      if v in EntryVulns(e.0, e.1.fields) {
        var item :| ItemGives(e.0, e.1.fields, item, v);
        assert EntryGives(entries, v);
      }
    }
  }

  /** A report yields exactly what its advisories and its entries give, key by key. */
  lemma YieldedMeaning(data: Json, v: Vuln)
    requires Yielded(data).Some?
    ensures v in Yielded(data).value <==>
            AdvisoryGives(Entries(data, "advisories"), v) || EntryGives(Entries(data, "vulnerabilities"), v)
  {
    YieldedInOrder(data);
    AllEntryVulnsMembers(Entries(data, "vulnerabilities"), v);
    AdvisoryVulnsMembers(Entries(data, "advisories"), v);
    hide Entries, Yielded, EntryGives, AdvisoryGives, AllEntryVulns, AdvisoryVulns;
  }

  lemma AdvisoryVulnsMembers(entries: seq<(string, Json)>, v: Vuln)
    requires forall e | e in entries :: e.1.JObj?
    ensures v in AdvisoryVulns(entries) <==> AdvisoryGives(entries, v)
  {
    hide AdvisoryVuln;
    if v in AdvisoryVulns(entries) {
      var i :| 0 <= i < |entries| && AdvisoryVulns(entries)[i] == v;
      assert entries[i] in entries;
    }
    if AdvisoryGives(entries, v) {
      var e :| e in entries && e.1.JObj? && v == AdvisoryVuln(e.1.fields);
      var i :| 0 <= i < |entries| && entries[i] == e;
      assert AdvisoryVulns(entries)[i] == v;
    }
  }
}
