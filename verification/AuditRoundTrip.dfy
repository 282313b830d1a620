/** Printing exception records and parsing them back: exactly which records survive. */
module AuditRoundTrip {
  import opened Collections
  import opened AuditExceptions

  // ---------- the printer ----------

  datatype Quoting = Bare | Single | Double

  /** A field as it is written. */
  datatype Written = Written(key: string, value: string, quoting: Quoting)

  /** A record as it is written: its fields in order. */
  type Entry = seq<Written>

  function Shown(p: Written): string {
    match p.quoting case Bare => p.value case Single => "'" + p.value + "'" case Double => "\"" + p.value + "\""
  }

  function FieldText(p: Written): string {
    p.key + ": " + Shown(p)
  }

  function EntryLines(e: Entry): (lines: seq<string>)
    ensures |lines| == |e|
    ensures forall i | 0 <= i < |e| :: lines[i] == (if i == 0 then "  - " else "    ") + FieldText(e[i])
  {
    seq(|e|, i requires 0 <= i < |e| => (if i == 0 then "  - " else "    ") + FieldText(e[i]))
  }

  function Printed(es: seq<Entry>): seq<string> {
    if es == [] then [] else Printed(es[..|es| - 1]) + EntryLines(es[|es| - 1])
  }

  /** The dictionary of a record: a later field with the same key wins. */
  function ToRecord(e: Entry): Record {
    if e == [] then map[] else ToRecord(e[..|e| - 1])[e[|e| - 1].key := e[|e| - 1].value]
  }

  function Records(es: seq<Entry>): (rs: seq<Record>)
    ensures |rs| == |es|
    ensures forall i | 0 <= i < |es| :: rs[i] == ToRecord(es[i])
  {
    seq(|es|, i requires 0 <= i < |es| => ToRecord(es[i]))
  }

  // ---------- which keys survive ----------

  /** Neither blanks around it nor a colon in it. */
  predicate Clean(key: string) {
    Strip(key) == key && ':' !in key
  }

  /** Not taken for a comment, a header line or the start of a record. */
  predicate Plain(key: string) {
    !StartsWith(key, "#") && key != "version" && key != "exceptions" && !StartsWith(key, "- ")
  }

  /** A value that comes back: any quoted one, and a bare one without blanks around it that does not look quoted. */
  predicate Faithful(p: Written) {
    p.quoting.Bare? ==> Strip(p.value) == p.value && !Quoted(p.value, '"') && !Quoted(p.value, '\'')
  }

  /** The first field follows the dash, so only the others can be mistaken for something else. */
  predicate Legible(e: Entry) {
    && e != []
    && (forall i | 0 <= i < |e| :: Clean(e[i].key))
    && (forall i | 0 < i < |e| :: Plain(e[i].key))
  }

  predicate Printable(e: Entry) {
    Legible(e) && forall i | 0 <= i < |e| :: Faithful(e[i])
  }

  // ---------- str.strip ----------

  predicate Solid(s: string) {
    s != "" && !IsSpace(s[0]) && !IsSpace(s[|s| - 1])
  }

  lemma {:induction false} TrimLeftShrinks(s: string)
    ensures |TrimLeft(s)| <= |s|
    ensures |TrimLeft(s)| == |s| ==> TrimLeft(s) == s && (s != "" ==> !IsSpace(s[0]))
    ensures TrimLeft(s) != "" ==> !IsSpace(TrimLeft(s)[0]) && TrimLeft(s)[|TrimLeft(s)| - 1] == s[|s| - 1]
  {
    if s != "" && IsSpace(s[0]) {
      TrimLeftShrinks(s[1..]);
    }
  }

  lemma {:induction false} TrimRightShrinks(s: string)
    ensures TrimRight(s) <= s
    ensures TrimRight(s) != "" ==> !IsSpace(TrimRight(s)[|TrimRight(s)| - 1])
  {
    if s != "" && IsSpace(s[|s| - 1]) {
      TrimRightShrinks(s[..|s| - 1]);
    }
  }

  /** A stripped string is empty or solid, and stripping it again changes nothing. */
  lemma StripMeaning(s: string)
    ensures Strip(s) == "" || Solid(Strip(s))
    ensures Strip(s) == s <==> s == "" || Solid(s)
  {
    TrimLeftShrinks(s);
    TrimRightShrinks(TrimLeft(s));
  }

  /** Blanks behind are trimmed, up to the last character that is none. */
  lemma {:induction false} TrimRightAppend(a: string, b: string)
    requires a != "" && !IsSpace(a[|a| - 1])
    ensures TrimRight(a + b) == a + TrimRight(b)
  {
    if b == "" {
      assert a + b == a;
    } else {
      assert (a + b)[|a + b| - 1] == b[|b| - 1] && (a + b)[..|a + b| - 1] == a + b[..|b| - 1];
      if IsSpace(b[|b| - 1]) {
        TrimRightAppend(a, b[..|b| - 1]);
      }
    }
  }

  /** Blanks in front are stripped, and those behind. */
  lemma {:induction false} StripPadded(pad: string, a: string, b: string)
    requires forall c | c in pad :: IsSpace(c)
    requires Solid(a)
    ensures Strip(pad + a + b) == a + TrimRight(b)
  {
    if pad == "" {
      assert pad + a + b == a + b;
      TrimRightAppend(a, b);
    } else {
      assert (pad + a + b)[1..] == pad[1..] + a + b && (pad + a + b)[0] == pad[0];
      StripPadded(pad[1..], a, b);
    }
  }

  lemma {:induction false} TrimRightFront(s: string)
    requires s != ""
    ensures TrimRight(s) == if IsSpace(s[0]) && TrimRight(s[1..]) == "" then "" else s[..1] + TrimRight(s[1..])
  {
    if |s| > 1 && IsSpace(s[|s| - 1]) {
      TrimRightFront(s[..|s| - 1]);
      assert s[..|s| - 1][1..] == s[1..][..|s| - 2];
    }
  }

  /** Either end can be trimmed first. */
  lemma {:induction false} TrimsCommute(s: string)
    ensures TrimLeft(TrimRight(s)) == TrimRight(TrimLeft(s))
  {
    if s != "" {
      TrimRightFront(s);
      if IsSpace(s[0]) {
        TrimsCommute(s[1..]);
        assert TrimRight(s) != "" ==> TrimRight(s)[1..] == TrimRight(s[1..]);
      }
    }
  }

  lemma StripTrimmed(s: string)
    ensures Strip(TrimRight(s)) == Strip(s) && Strip(" " + s) == Strip(s)
    ensures TrimRight(TrimRight(s)) == TrimRight(s)
  {
    TrimsCommute(s);
    TrimRightShrinks(s);
    TrimRightShrinks(TrimLeft(s));
    assert (" " + s)[1..] == s;
  }

  // ---------- one printed field ----------

  /** What is left of the text of a field once its line is stripped. */
  function FieldLine(p: Written): string {
    p.key + ":" + TrimRight(" " + Shown(p))
  }

  /** What split_kv makes of the value. */
  function Read(p: Written): string {
    var value := Strip(Shown(p));
    if Quoted(value, '"') || Quoted(value, '\'') then Inside(value) else value
  }

  /** A value is read as it was exactly when it is faithful. */
  lemma ReadMeaning(p: Written)
    ensures Read(p) == p.value <==> Faithful(p)
  {
    if p.quoting.Bare? {
      StripShrinks(p.value);
      hide Strip;
    } else {
      assert Solid(Shown(p));
      StripMeaning(Shown(p));
      hide Strip;
      assert Inside(Shown(p)) == p.value;
    }
  }

  lemma StripShrinks(s: string)
    ensures |Strip(s)| <= |s| && (|Strip(s)| == |s| ==> Strip(s) == s)
  {
    TrimLeftShrinks(s);
    TrimRightShrinks(TrimLeft(s));
  }

  lemma KeyIsSolid(key: string)
    requires Clean(key)
    ensures Solid(key + ":")
  {
    StripMeaning(key);
    assert key == "" ==> (key + ":")[0] == ':';
    assert key != "" ==> (key + ":")[0] == key[0];
  }

  lemma FirstColonAfter(key: string, rest: string)
    requires ':' !in key
    ensures FirstColon(key + ":" + rest) == |key|
  {
    var line := key + ":" + rest;
    var c := FirstColon(line);
    assert line[|key|] == ':';
    assert forall k | 0 <= k < |key| :: line[k] == key[k];
  }

  lemma SplitPrinted(p: Written)
    requires Clean(p.key)
    ensures SplitKV(FieldLine(p)) == Some(Pair(p.key, Read(p)))
  {
    var tail := TrimRight(" " + Shown(p));
    var line := FieldLine(p);
    FirstColonAfter(p.key, tail);
    assert line[..|p.key|] == p.key && line[|p.key| + 1..] == tail;
    StripTrimmed(" " + Shown(p));
    StripTrimmed(Shown(p));
  }

  lemma ItemText(p: Written)
    requires Clean(p.key)
    ensures Strip("  - " + FieldText(p)) == "- " + FieldLine(p)
    ensures ("- " + FieldLine(p))[2..] == FieldLine(p) && Strip(FieldLine(p)) == FieldLine(p)
    ensures !StartsWith("- " + FieldLine(p), "#")
    ensures !StartsWith("- " + FieldLine(p), "version:") && !StartsWith("- " + FieldLine(p), "exceptions:")
  {
    ItemLine(p);
    KeyIsSolid(p.key);
    StripPadded("", p.key + ":", TrimRight(" " + Shown(p)));
    StripTrimmed(" " + Shown(p));
    assert "" + (p.key + ":") + TrimRight(" " + Shown(p)) == FieldLine(p);
    assert ("- " + FieldLine(p))[0] == '-';
  }

  /** Whatever the key, the line of a first field starts with the dash. */
  lemma ItemLine(p: Written)
    ensures Strip("  - " + FieldText(p)) == "- " + FieldLine(p)
  {
    var start := "- " + p.key + ":";
    assert start[0] == '-' && start[|start| - 1] == ':';
    assert "  - " + FieldText(p) == "  " + start + (" " + Shown(p));
    StripPadded("  ", start, " " + Shown(p));
    assert start + TrimRight(" " + Shown(p)) == "- " + FieldLine(p);
  }

  /** The line after the dash starts a record with its first field. */
  lemma FirstFieldStep(s: State, p: Written)
    requires Clean(p.key)
    ensures Step(s, "  - " + FieldText(p)) == Some(State(Closed(s), Some(map[p.key := Read(p)])))
  {
    SplitPrinted(p);
    ItemText(p);
    assert FieldLine(p) != "";
    hide Strip, FieldText, FieldLine, SplitKV, Read;
  }

  /** What the parser sees of another field, whatever its key. */
  lemma OtherFieldText(p: Written)
    requires Clean(p.key)
    ensures Strip("    " + FieldText(p)) == FieldLine(p) && ':' in FieldLine(p)
    ensures StartsWith(FieldLine(p), "#") <==> StartsWith(p.key, "#")
    ensures StartsWith(FieldLine(p), "version:") <==> p.key == "version"
    ensures StartsWith(FieldLine(p), "exceptions:") <==> p.key == "exceptions"
    ensures StartsWith(FieldLine(p), "- ") <==> StartsWith(p.key, "- ")
  {
    KeyIsSolid(p.key);
    assert "    " + FieldText(p) == "    " + (p.key + ":") + (" " + Shown(p));
    StripPadded("    ", p.key + ":", " " + Shown(p));
    assert FieldLine(p)[|p.key|] == ':';
    HeaderKey(p, "version");
    HeaderKey(p, "exceptions");
    DashKey(p);
    hide Strip, TrimRight, Shown, FieldText;
  }

  lemma DashKey(p: Written)
    requires ':' !in p.key
    ensures StartsWith(FieldLine(p), "#") <==> StartsWith(p.key, "#")
    ensures StartsWith(FieldLine(p), "- ") <==> StartsWith(p.key, "- ")
  {
    hide TrimRight, Shown;
    var line := FieldLine(p);
    assert line[|p.key|] == ':';
    assert forall k | 0 <= k < |p.key| :: line[k] == p.key[k];
    assert StartsWith(line, "- ") ==> line[0] == '-' && line[1] == ' ';
    assert |p.key| == 1 ==> line[1] == ':';
    assert StartsWith(line, "- ") ==> |p.key| >= 2;
  }

  lemma HeaderKey(p: Written, header: string)
    requires ':' !in p.key && ':' !in header
    ensures StartsWith(FieldLine(p), header + ":") <==> p.key == header
  {
    hide TrimRight, Shown;
    var line := FieldLine(p);
    assert line[|p.key|] == ':' && forall k | 0 <= k < |p.key| :: line[k] == p.key[k];
    if StartsWith(line, header + ":") {
      assert (header + ":")[|header|] == ':' && line[|header|] == ':';
      assert forall k | 0 <= k < |header| :: line[k] == (header + ":")[k] == header[k];
      assert |p.key| == |header|;
      assert p.key == header;
    }
  }

  lemma OtherFieldStep(s: State, p: Written)
    requires Clean(p.key) && Plain(p.key) && s.current.Some?
    ensures Step(s, "    " + FieldText(p)) == Some(s.(current := Some(s.current.value[p.key := Read(p)])))
  {
    OtherFieldText(p);
    SplitPrinted(p);
    hide Strip, FieldText, FieldLine, SplitKV, Read, Clean;
    assert FieldLine(p) != "";
  }

  // ---------- the round trip ----------

  /** The record with the values as they are read. */
  function AsRead(e: Entry): (r: Entry)
    ensures |r| == |e| && forall i | 0 <= i < |e| :: r[i] == e[i].(value := Read(e[i]))
  {
    seq(|e|, i requires 0 <= i < |e| => e[i].(value := Read(e[i])))
  }

  lemma {:induction false} EntrySteps(s: State, e: Entry)
    requires Legible(e)
    ensures Steps(s, EntryLines(e)) == Some(State(Closed(s), Some(ToRecord(AsRead(e)))))
    ensures ToRecord(AsRead(e)) != map[]
  {
    hide Read, Step, FieldText, Clean, Plain;
    var n := |e| - 1;
    var lines := EntryLines(e);
    assert e[n].key in ToRecord(AsRead(e));
    if n == 0 {
      FirstFieldStep(s, e[0]);
      assert lines[..0] == [];
      assert Steps(s, lines[..0]) == Some(s);
      assert ToRecord(AsRead(e)[..0]) == map[];
    } else {
      EntrySteps(s, e[..n]);
      assert lines[..n] == EntryLines(e[..n]);
      assert AsRead(e)[..n] == AsRead(e[..n]);
      OtherFieldStep(State(Closed(s), Some(ToRecord(AsRead(e[..n])))), e[n]);
    }
  }

  function AllAsRead(es: seq<Entry>): (rs: seq<Entry>)
    ensures |rs| == |es| && forall i | 0 <= i < |es| :: rs[i] == AsRead(es[i])
  {
    seq(|es|, i requires 0 <= i < |es| => AsRead(es[i]))
  }

  lemma ClosedAfter(done: seq<Record>, r: Record)
    requires r != map[]
    ensures Closed(State(done, Some(r))) == done + [r]
  {
  }

  lemma RecordsSnoc(es: seq<Entry>, e: Entry)
    ensures Records(es + [e]) == Records(es) + [ToRecord(e)]
  {
    hide ToRecord;
  }

  lemma ParseNothing()
    ensures Steps(START, Printed([])) == Some(START) && Closed(START) == Records(AllAsRead([]))
  {
  }

  /** Parsing printed records gives their keys, and their values as they are read. */
  lemma {:induction false} ParseLegible(es: seq<Entry>)
    requires forall i | 0 <= i < |es| :: Legible(es[i])
    ensures Steps(START, Printed(es)).Some?
    ensures Closed(Steps(START, Printed(es)).value) == Records(AllAsRead(es))
  {
    hide Steps, EntryLines, Legible, AsRead, ToRecord, Records, Closed;
    if es == [] {
      ParseNothing();
    } else {
      var n := |es| - 1;
      ParseLegible(es[..n]);
      StepsConcat(START, Printed(es[..n]), EntryLines(es[n]));
      EntrySteps(Steps(START, Printed(es[..n])).value, es[n]);
      ClosedAfter(Closed(Steps(START, Printed(es[..n])).value), ToRecord(AsRead(es[n])));
      assert AllAsRead(es) == AllAsRead(es[..n]) + [AsRead(es[n])];
      RecordsSnoc(AllAsRead(es[..n]), AsRead(es[n]));
    }
  }

  /** Parsing the printed records gives the records, in order. */
  lemma ParsePrinted(es: seq<Entry>)
    requires forall i | 0 <= i < |es| :: Printable(es[i])
    ensures Steps(START, Printed(es)).Some? && Closed(Steps(START, Printed(es)).value) == Records(es)
  {
    hide Steps, Printed, Closed, Legible, Read, Faithful, ToRecord;
    ParseLegible(es);
    forall i | 0 <= i < |es|
      ensures AsRead(es[i]) == es[i]
    {
      forall j | 0 <= j < |es[i]|
        ensures Read(es[i][j]) == es[i][j].value
      {
        ReadMeaning(es[i][j]);
      }
    }
    assert AllAsRead(es) == es;
  }

  // ---------- nothing else survives ----------

  /** The parser only produces clean keys. */
  ghost predicate CleanKeys(s: State) {
    && (forall i, k | 0 <= i < |s.done| && k in s.done[i] :: Clean(k))
    && (s.current.Some? ==> forall k | k in s.current.value :: Clean(k))
  }

  lemma SplitIsClean(line: string)
    ensures SplitKV(line).Some? ==> Clean(SplitKV(line).value.key)
  {
    var c := FirstColon(line);
    StripMeaning(line[..c]);
    StripMeaning(Strip(line[..c]));
    StripIsPart(line[..c], ':');
  }

  lemma StripIsPart(s: string, c: char)
    requires c !in s
    ensures c !in Strip(s)
  {
    TrimLeftIsPart(s, c);
    TrimRightShrinks(TrimLeft(s));
  }

  lemma {:induction false} TrimLeftIsPart(s: string, c: char)
    requires c !in s
    ensures c !in TrimLeft(s)
  {
    if s != "" && IsSpace(s[0]) {
      TrimLeftIsPart(s[1..], c);
    }
  }

  lemma {:induction false} StepsCleanKeys(s: State, lines: seq<string>)
    requires CleanKeys(s) && Steps(s, lines).Some?
    ensures CleanKeys(Steps(s, lines).value)
  {
    if lines != [] {
      StepsCleanKeys(s, lines[..|lines| - 1]);
      var line := Strip(lines[|lines| - 1]);
      SplitIsClean(line);
      if StartsWith(line, "- ") {
        SplitIsClean(Strip(line[2..]));
      }
    }
  }

  /** How many fields the records hold, counting the one being read. */
  function Sizes(rs: seq<Record>): nat {
    if rs == [] then 0 else Sizes(rs[..|rs| - 1]) + |rs[|rs| - 1]|
  }

  function Held(s: State): nat {
    Sizes(s.done) + (if s.current.Some? then |s.current.value| else 0)
  }

  /** A line that starts a record and has a field. */
  predicate Item(raw: string) {
    var line := Strip(raw);
    StartsWith(line, "- ") && Strip(line[2..]) != ""
  }

  function Noises(lines: seq<string>): nat {
    if lines == [] then 0 else Noises(lines[..|lines| - 1]) + (if Noise(lines[|lines| - 1]) then 1 else 0)
  }

  function Items(lines: seq<string>): nat {
    if lines == [] then 0 else Items(lines[..|lines| - 1]) + (if Item(lines[|lines| - 1]) then 1 else 0)
  }

  lemma SizesSnoc(rs: seq<Record>, r: Record)
    ensures Sizes(rs + [r]) == Sizes(rs) + |r|
  {
    assert (rs + [r])[..|rs|] == rs;
  }

  lemma DashLine(line: string)
    requires StartsWith(line, "- ")
    ensures line != "" && !StartsWith(line, "#") && !StartsWith(line, "version:") && !StartsWith(line, "exceptions:")
  {
    assert line[0] == '-';
  }

  /** A line adds at most one field, a noise line none; an item line makes one more record, no line makes fewer. */
  lemma StepCounts(s: State, raw: string)
    requires Step(s, raw).Some?
    ensures Held(Step(s, raw).value) + (if Noise(raw) then 1 else 0) <= Held(s) + 1
    ensures |Closed(Step(s, raw).value)| >= |Closed(s)| + (if Item(raw) then 1 else 0)
  {
    hide Strip, SplitKV;
    if s.current.Some? {
      SizesSnoc(s.done, s.current.value);
      assert s.current.value == map[] ==> |s.current.value| == 0;
    }
    assert Sizes(Closed(s)) == Held(s);
    var next := Step(s, raw).value;
    if Item(raw) {
      DashLine(Strip(raw));
      var p := SplitKV(Strip(Strip(raw)[2..])).value;
      assert p.key in next.current.value && next == State(Closed(s), Some(map[p.key := p.value]));
    }
  }

  lemma {:induction false} StepsCounts(s: State, lines: seq<string>)
    requires Steps(s, lines).Some?
    ensures Held(Steps(s, lines).value) + Noises(lines) <= Held(s) + |lines|
    ensures |Closed(Steps(s, lines).value)| >= |Closed(s)| + Items(lines)
  {
    hide Step, Noise, Item, Held, Closed;
    if lines != [] {
      StepsCounts(s, lines[..|lines| - 1]);
      StepCounts(Steps(s, lines[..|lines| - 1]).value, lines[|lines| - 1]);
    }
  }

  lemma {:induction false} CountsConcat(a: seq<string>, b: seq<string>)
    ensures Noises(a + b) == Noises(a) + Noises(b) && Items(a + b) == Items(a) + Items(b)
  {
    hide Noise, Item;
    if b == [] {
      assert a + b == a;
    } else {
      CountsConcat(a, b[..|b| - 1]);
      assert (a + b)[..|a + b| - 1] == a + b[..|b| - 1];
    }
  }

  ghost predicate DistinctKeys(e: Entry) {
    forall i, j | 0 <= i < j < |e| :: e[i].key != e[j].key
  }

  lemma {:induction false} RecordSize(e: Entry)
    requires DistinctKeys(e)
    ensures |ToRecord(e)| == |e|
    ensures forall k :: k in ToRecord(e) <==> exists i :: 0 <= i < |e| && e[i].key == k
  {
    if e != [] {
      RecordSize(e[..|e| - 1]);
      assert forall i | 0 <= i < |e| - 1 :: e[..|e| - 1][i] == e[i];
    }
  }

  /** The first line of an entry is an item, whatever its key. */
  lemma FirstLineIsItem(p: Written)
    ensures Item("  - " + FieldText(p))
  {
    ItemLine(p);
    var line := "- " + FieldLine(p);
    assert line[2..] == FieldLine(p) && FieldLine(p)[|p.key|] == ':';
    NotBlank(FieldLine(p), |p.key|);
  }

  lemma NotBlank(text: string, i: nat)
    requires i < |text| && !IsSpace(text[i])
    ensures Strip(text) != ""
  {
    TrimRightAppend(text[..i + 1], text[i + 1..]);
    assert text == text[..i + 1] + text[i + 1..];
    TrimRightShrinks(text);
    TrimLeftKeeps(TrimRight(text));
    TrimsCommute(text);
  }

  lemma {:induction false} TrimLeftKeeps(text: string)
    requires text != "" && !IsSpace(text[|text| - 1])
    ensures TrimLeft(text) != ""
  {
    if IsSpace(text[0]) {
      TrimLeftKeeps(text[1..]);
    }
  }

  /** Another field with a clean key that is not plain is noise or an item. */
  lemma OddKeyCounts(p: Written)
    requires Clean(p.key) && !Plain(p.key)
    ensures Noise("    " + FieldText(p)) || Item("    " + FieldText(p))
  {
    OtherFieldText(p);
    if StartsWith(p.key, "- ") {
      var line := FieldLine(p);
      assert line[2..][|p.key| - 2] == ':';
      NotBlank(line[2..], |p.key| - 2);
    }
  }

  predicate AllClean(e: Entry) {
    forall i | 0 <= i < |e| :: Clean(e[i].key)
  }

  predicate HasOddKey(e: Entry) {
    exists i :: 0 < i < |e| && !Plain(e[i].key)
  }

  lemma {:induction false} EntryCounts(e: Entry)
    requires e != []
    ensures Items(EntryLines(e)) >= 1
    ensures AllClean(e) && HasOddKey(e) ==> Noises(EntryLines(e)) + Items(EntryLines(e)) >= 2
  {
    hide Noise, Item, FieldText, Clean, Plain;
    var n := |e| - 1;
    var lines := EntryLines(e);
    if n == 0 {
      FirstLineIsItem(e[0]);
      assert lines[..0] == [];
    } else {
      assert lines[..n] == EntryLines(e[..n]);
      EntryCounts(e[..n]);
      if Clean(e[n].key) && !Plain(e[n].key) {
        OddKeyCounts(e[n]);
      } else if AllClean(e) && HasOddKey(e) {
        var i :| 0 < i < |e| && !Plain(e[i].key);
        assert e[..n][i] == e[i];
      }
    }
  }

  lemma {:induction false} PrintedCounts(es: seq<Entry>)
    requires forall i | 0 <= i < |es| :: es[i] != [] && DistinctKeys(es[i])
    ensures Sizes(Records(es)) == |Printed(es)|
    ensures Items(Printed(es)) >= |es|
    ensures forall i | 0 <= i < |es| && AllClean(es[i]) && HasOddKey(es[i]) ::
              Noises(Printed(es)) + Items(Printed(es)) > |es|
  {
    hide Noises, Items, FieldText, AllClean, HasOddKey, EntryLines, ToRecord, DistinctKeys;
    if es == [] {
      assert Noises([]) == 0 && Items([]) == 0 by { NoLines(); }
    } else {
      var n := |es| - 1;
      PrintedCounts(es[..n]);
      EntryCounts(es[n]);
      RecordSize(es[n]);
      CountsConcat(Printed(es[..n]), EntryLines(es[n]));
      assert Records(es) == Records(es[..n]) + [ToRecord(es[n])];
      SizesSnoc(Records(es[..n]), ToRecord(es[n]));
      assert forall i | 0 <= i < n :: es[..n][i] == es[i];
    }
  }

  lemma NoLines()
    ensures Noises([]) == 0 && Items([]) == 0
  {
  }

  /** Line by line, printer and parser are inverse on exactly these records: clean keys, plain ones after the first, and
    * values that are quoted or can be read without quotes.
    */
  lemma LinesRoundTripIff(es: seq<Entry>)
    requires forall i | 0 <= i < |es| :: es[i] != [] && DistinctKeys(es[i])
    ensures Parsed(Printed(es)) == Some(Records(es)) <==> forall i | 0 <= i < |es| :: Printable(es[i])
  {
    hide Steps, Printed, Records, Closed, Held, Noises, Items;
    if forall i | 0 <= i < |es| :: Printable(es[i]) {
      ParsePrinted(es);
    } else if Parsed(Printed(es)) == Some(Records(es)) {
      SurvivorsAreLegible(es);
      LegibleSurvivorsAreFaithful(es);
    }
  }

  lemma SurvivorsAreLegible(es: seq<Entry>)
    requires forall i | 0 <= i < |es| :: es[i] != [] && DistinctKeys(es[i])
    requires Parsed(Printed(es)) == Some(Records(es))
    ensures forall i | 0 <= i < |es| :: Legible(es[i])
  {
    hide Steps, Printed, Held, Noises, Items, ToRecord, Clean, Plain;
    var end := Steps(START, Printed(es)).value;
    StepsCleanKeys(START, Printed(es));
    StepsCounts(START, Printed(es));
    PrintedCounts(es);
    HeldIsSizes(end);
    HeldIsSizes(START);
    ClosedCleanKeys(end);
    forall i | 0 <= i < |es|
      ensures Legible(es[i])
    {
      RecordSize(es[i]);
      forall j | 0 <= j < |es[i]|
        ensures Clean(es[i][j].key)
      {
        assert es[i][j].key in Records(es)[i];
      }
      assert AllClean(es[i]);
      assert !HasOddKey(es[i]);
    }
  }

  lemma LegibleSurvivorsAreFaithful(es: seq<Entry>)
    requires forall i | 0 <= i < |es| :: Legible(es[i]) && DistinctKeys(es[i])
    requires Parsed(Printed(es)) == Some(Records(es))
    ensures forall i | 0 <= i < |es| :: Printable(es[i])
  {
    hide Steps, Printed, Closed, Legible, Read, Faithful, ToRecord;
    ParseLegible(es);
    forall i | 0 <= i < |es|
      ensures Printable(es[i])
    {
      assert Records(es)[i] == Records(AllAsRead(es))[i];
      forall j | 0 <= j < |es[i]|
        ensures Faithful(es[i][j])
      {
        RecordHolds(es[i], j);
        RecordHolds(AsRead(es[i]), j);
        ReadMeaning(es[i][j]);
      }
    }
  }

  lemma HeldIsSizes(s: State)
    ensures Held(s) == Sizes(Closed(s))
  {
    if s.current.Some? {
      SizesSnoc(s.done, s.current.value);
      assert s.current.value == map[] ==> |s.current.value| == 0;
    }
  }

  lemma ClosedCleanKeys(s: State)
    requires CleanKeys(s)
    ensures forall i, k | 0 <= i < |Closed(s)| && k in Closed(s)[i] :: Clean(k)
  {
  }

  // ---------- the text of a file ----------

  function FirstBreak(text: string): (i: nat)
    ensures i <= |text| && (i < |text| ==> text[i] == '\n') && forall k | 0 <= k < i :: text[k] != '\n'
  {
    if text == "" || text[0] == '\n' then 0 else FirstBreak(text[1..]) + 1
  }

  /** Universal newlines: reading a text file turns `\r\n` and `\r` into `\n`. */
  function Translated(text: string): string {
    if text == "" then ""
    else if text[0] == '\r' then "\n" + Translated(if |text| > 1 && text[1] == '\n' then text[2..] else text[1..])
    else text[..1] + Translated(text[1..])
  }

  /** Lines with the newline that ends them; the last may have none. */
  function SplitLines(text: string): seq<string> {
    var i := FirstBreak(text);
    if text == "" then []
    else if i == |text| then [text]
    else [text[..i + 1]] + SplitLines(text[i + 1..])
  }

  /** The lines that iterating over an open text file gives. */
  function FileLines(text: string): seq<string> {
    SplitLines(Translated(text))
  }

  function FileText(lines: seq<string>): string {
    if lines == [] then "" else lines[0] + "\n" + FileText(lines[1..])
  }

  function Ended(lines: seq<string>): (ended: seq<string>)
    ensures |ended| == |lines| && forall i | 0 <= i < |lines| :: ended[i] == lines[i] + "\n"
  {
    seq(|lines|, i requires 0 <= i < |lines| => lines[i] + "\n")
  }

  predicate Unbroken(text: string) {
    '\n' !in text && '\r' !in text
  }

  predicate UnbrokenEntry(e: Entry) {
    forall i | 0 <= i < |e| :: Unbroken(e[i].key) && Unbroken(e[i].value)
  }

  lemma {:induction false} TranslatedIsTheSame(text: string)
    requires '\r' !in text
    ensures Translated(text) == text
  {
    if text != "" {
      TranslatedIsTheSame(text[1..]);
    }
  }

  lemma {:induction false} TranslatedHasNoReturn(text: string)
    ensures '\r' !in Translated(text)
    decreases |text|
  {
    if text != "" {
      TranslatedHasNoReturn(
        if text[0] == '\r' && |text| > 1 && text[1] == '\n' then text[2..] else text[1..]);
    }
  }

  lemma {:induction false} SplitJoined(lines: seq<string>)
    requires forall line | line in lines :: Unbroken(line)
    ensures '\r' !in FileText(lines)
    ensures SplitLines(FileText(lines)) == Ended(lines)
  {
    if lines != [] {
      SplitJoined(lines[1..]);
      hide SplitLines;
      SplitFirst(lines[0], FileText(lines[1..]));
      assert Unbroken(lines[0]);
      assert Ended(lines) == [lines[0] + "\n"] + Ended(lines[1..]);
    }
  }

  lemma SplitFirst(line: string, rest: string)
    requires Unbroken(line)
    ensures SplitLines(line + "\n" + rest) == [line + "\n"] + SplitLines(rest)
  {
    var text := line + "\n" + rest;
    assert text[|line|] == '\n' && forall k | 0 <= k < |line| :: text[k] == line[k];
    assert FirstBreak(text) == |line|;
    assert text[..|line| + 1] == line + "\n" && text[|line| + 1..] == rest;
  }

  /** The newline that ends a line is stripped with the other blanks. */
  lemma {:induction false} StripEnded(line: string)
    ensures Strip(line + "\n") == Strip(line)
  {
    if line == "" {
      assert "\n"[1..] == "" && "\n"[0] == '\n';
      assert line + "\n" == "\n";
    } else if IsSpace(line[0]) {
      assert (line + "\n")[1..] == line[1..] + "\n";
      StripEnded(line[1..]);
    } else {
      assert (line + "\n")[..|line|] == line;
    }
  }

  lemma {:induction false} StepsEnded(s: State, lines: seq<string>)
    ensures Steps(s, Ended(lines)) == Steps(s, lines)
  {
    hide Strip, SplitKV;
    if lines != [] {
      var n := |lines| - 1;
      StepsEnded(s, lines[..n]);
      assert Ended(lines)[..n] == Ended(lines[..n]);
      StripEnded(lines[n]);
    }
  }

  /** Without a line break inside a line, a file is read as the lines it was written from. */
  lemma ReadAsWritten(lines: seq<string>)
    requires forall line | line in lines :: Unbroken(line)
    ensures Parsed(FileLines(FileText(lines))) == Parsed(lines)
  {
    hide Steps, SplitLines, FileText, Translated, Ended;
    SplitJoined(lines);
    TranslatedIsTheSame(FileText(lines));
    StepsEnded(START, lines);
  }

  // ---------- a file never gives back a line break ----------

  /** What is left of a line after stripping has no line break. */
  lemma {:induction false} SplitLinesAreUnbroken(text: string, line: string)
    requires '\r' !in text && line in SplitLines(text)
    ensures Unbroken(Strip(line))
    decreases |text|
  {
    var i := FirstBreak(text);
    if i < |text| && line != text[..i + 1] {
      SplitLinesAreUnbroken(text[i + 1..], line);
    } else {
      assert Unbroken(text[..i]);
      StripIsPart(text[..i], '\n');
      StripIsPart(text[..i], '\r');
      StripEnded(text[..i]);
      assert i == |text| ==> text[..i] == text;
      assert i < |text| ==> text[..i + 1] == text[..i] + "\n";
    }
  }

  predicate UnbrokenRecord(r: Record) {
    forall k | k in r :: Unbroken(k) && Unbroken(r[k])
  }

  ghost predicate UnbrokenState(s: State) {
    && (forall i | 0 <= i < |s.done| :: UnbrokenRecord(s.done[i]))
    && (s.current.Some? ==> UnbrokenRecord(s.current.value))
  }

  lemma SplitIsUnbroken(line: string)
    requires Unbroken(line) && SplitKV(line).Some?
    ensures Unbroken(SplitKV(line).value.key) && Unbroken(SplitKV(line).value.value)
  {
    var c := FirstColon(line);
    PartIsUnbroken(line, line[..c]);
    PartIsUnbroken(line, line[c + 1..]);
    var value := Strip(line[c + 1..]);
    PartIsUnbroken(value, Inside(value));
  }

  lemma PartIsUnbroken(line: string, part: string)
    requires Unbroken(line) && forall c | c in part :: c in line
    ensures Unbroken(part) && Unbroken(Strip(part))
  {
    StripIsPart(part, '\n');
    StripIsPart(part, '\r');
  }

  lemma StepUnbroken(s: State, raw: string)
    requires UnbrokenState(s) && Unbroken(Strip(raw)) && Step(s, raw).Some?
    ensures UnbrokenState(Step(s, raw).value)
  {
    hide Strip, SplitKV, Unbroken;
    var line := Strip(raw);
    if SplitKV(line).Some? {
      SplitIsUnbroken(line);
    }
    if StartsWith(line, "- ") {
      PartIsUnbroken(line, line[2..]);
      if SplitKV(Strip(line[2..])).Some? {
        SplitIsUnbroken(Strip(line[2..]));
      }
    }
  }

  lemma {:induction false} StepsUnbroken(s: State, lines: seq<string>)
    requires UnbrokenState(s) && Steps(s, lines).Some?
    requires forall line | line in lines :: Unbroken(Strip(line))
    ensures UnbrokenState(Steps(s, lines).value)
  {
    hide Step, Strip, Unbroken, UnbrokenState;
    if lines != [] {
      StepsUnbroken(s, lines[..|lines| - 1]);
      StepUnbroken(Steps(s, lines[..|lines| - 1]).value, lines[|lines| - 1]);
    }
  }

  lemma FilesAreUnbroken(text: string)
    requires Parsed(FileLines(text)).Some?
    ensures forall r | r in Parsed(FileLines(text)).value :: UnbrokenRecord(r)
  {
    hide Steps, SplitLines, Translated, Strip, Unbroken;
    TranslatedHasNoReturn(text);
    forall line | line in FileLines(text)
      ensures Unbroken(Strip(line))
    {
      SplitLinesAreUnbroken(Translated(text), line);
    }
    StepsUnbroken(START, FileLines(text));
  }

  lemma {:induction false} RecordHolds(e: Entry, i: nat)
    requires DistinctKeys(e) && i < |e|
    ensures e[i].key in ToRecord(e) && ToRecord(e)[e[i].key] == e[i].value
  {
    var n := |e| - 1;
    if i < n {
      RecordHolds(e[..n], i);
    }
  }

  lemma FieldUnbroken(p: Written, start: string)
    requires Unbroken(start) && Unbroken(p.key) && Unbroken(p.value)
    ensures Unbroken(start + FieldText(p))
  {
    assert Unbroken(Shown(p));
    hide Shown;
  }

  lemma {:induction false} PrintedUnbroken(es: seq<Entry>)
    requires forall i | 0 <= i < |es| :: UnbrokenEntry(es[i])
    ensures forall line | line in Printed(es) :: Unbroken(line)
  {
    hide FieldText;
    if es != [] {
      var n := |es| - 1;
      PrintedUnbroken(es[..n]);
      forall line | line in EntryLines(es[n])
        ensures Unbroken(line)
      {
        var i :| 0 <= i < |es[n]| && line == EntryLines(es[n])[i];
        FieldUnbroken(es[n][i], "  - ");
        FieldUnbroken(es[n][i], "    ");
      }
    }
  }

  /** A file of printed records is parsed back to them exactly when, besides, no key or value breaks a line. */
  lemma RoundTripIff(es: seq<Entry>)
    requires forall i | 0 <= i < |es| :: es[i] != [] && DistinctKeys(es[i])
    ensures Parsed(FileLines(FileText(Printed(es)))) == Some(Records(es)) <==>
            forall i | 0 <= i < |es| :: Printable(es[i]) && UnbrokenEntry(es[i])
  {
    hide Parsed, FileLines, FileText, Printed, Printable, DistinctKeys, UnbrokenEntry, Unbroken;
    if Parsed(FileLines(FileText(Printed(es)))) == Some(Records(es)) {
      WhatIsReadIsUnbroken(es);
    }
    if forall i | 0 <= i < |es| :: UnbrokenEntry(es[i]) {
      PrintedUnbroken(es);
      ReadAsWritten(Printed(es));
      LinesRoundTripIff(es);
    }
  }

  lemma WhatIsReadIsUnbroken(es: seq<Entry>)
    requires forall i | 0 <= i < |es| :: es[i] != [] && DistinctKeys(es[i])
    requires Parsed(FileLines(FileText(Printed(es)))) == Some(Records(es))
    ensures forall i | 0 <= i < |es| :: UnbrokenEntry(es[i])
  {
    hide Parsed, FileLines, FileText, Printed, DistinctKeys, Unbroken, ToRecord;
    FilesAreUnbroken(FileText(Printed(es)));
    forall i | 0 <= i < |es|
      ensures UnbrokenEntry(es[i])
    {
      assert Records(es)[i] in Records(es);
      forall j | 0 <= j < |es[i]|
        ensures Unbroken(es[i][j].key) && Unbroken(es[i][j].value)
      {
        RecordHolds(es[i], j);
      }
    }
  }

  // ---------- blanks, and lines that raise ----------

  /** The characters that str.strip takes off. */
  lemma BlanksMeaning(c: char)
    ensures IsSpace(c) <==>
            || c in ['\t', '\n', '\U{0B}', '\U{0C}', '\r', '\U{1C}', '\U{1D}', '\U{1E}', '\U{1F}', ' ', '\U{85}']
            || c in ['\U{A0}', '\U{1680}', '\U{2028}', '\U{2029}', '\U{202F}', '\U{205F}', '\U{3000}']
            || '\U{2000}' <= c <= '\U{200A}'
  {
  }

  /** Stripping keeps everything that is no blank. */
  lemma {:induction false} TrimLeftKeepsIn(s: string, c: char)
    requires c in s && !IsSpace(c)
    ensures c in TrimLeft(s)
  {
    if IsSpace(s[0]) {
      assert s == [s[0]] + s[1..];
      TrimLeftKeepsIn(s[1..], c);
    }
  }

  lemma {:induction false} TrimRightKeepsIn(s: string, c: char)
    requires c in s && !IsSpace(c)
    ensures c in TrimRight(s)
  {
    var n := |s| - 1;
    if IsSpace(s[n]) {
      assert s == s[..n] + [s[n]];
      TrimRightKeepsIn(s[..n], c);
    }
  }

  lemma ColonSurvives(s: string)
    ensures ':' in Strip(s) <==> ':' in s
  {
    if ':' in s {
      TrimLeftKeepsIn(s, ':');
      TrimRightKeepsIn(TrimLeft(s), ':');
    } else {
      StripIsPart(s, ':');
    }
  }

  /** An item line without a colon. */
  predicate Unreadable(raw: string) {
    StartsWith(Strip(raw), "- ") && ':' !in Strip(raw)
  }

  lemma StepRaisesIff(s: State, raw: string)
    ensures Step(s, raw).None? <==> Unreadable(raw)
  {
    var line := Strip(raw);
    StripMeaning(raw);
    if StartsWith(line, "- ") {
      DashLine(line);
      assert line == "- " + line[2..];
      ColonSurvives(line[2..]);
      if |line| > 2 {
        NotBlank(line[2..], |line| - 3);
      }
    }
  }

  /** Python raises exactly on a file that has an item line without a colon. */
  lemma {:induction false} ParsedRaisesIff(s: State, lines: seq<string>)
    ensures Steps(s, lines).None? <==> exists i :: 0 <= i < |lines| && Unreadable(lines[i])
  {
    hide Step, Unreadable;
    if lines != [] {
      var n := |lines| - 1;
      ParsedRaisesIff(s, lines[..n]);
      assert forall i | 0 <= i < n :: lines[..n][i] == lines[i];
      if Steps(s, lines[..n]).Some? {
        StepRaisesIff(Steps(s, lines[..n]).value, lines[n]);
      }
    }
  }
}
