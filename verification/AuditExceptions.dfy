/** The exception list of the audit gate: a line-oriented parser, and the printer it inverts. */
module AuditExceptions {
  import opened Collections

  // ---------- str.strip, and "key: value" lines ----------

  /** str.isspace for one character. */
  predicate IsSpace(c: char) {
    || '\t' <= c <= '\r' || '\U{1C}' <= c <= ' ' || c == '\U{85}' || c == '\U{A0}' || c == '\U{1680}'
    || '\U{2000}' <= c <= '\U{200A}' || c == '\U{2028}' || c == '\U{2029}' || c == '\U{202F}' || c == '\U{205F}'
    || c == '\U{3000}'
  }

  function TrimLeft(s: string): string {
    if s != "" && IsSpace(s[0]) then TrimLeft(s[1..]) else s
  }

  function TrimRight(s: string): string {
    if s != "" && IsSpace(s[|s| - 1]) then TrimRight(s[..|s| - 1]) else s
  }

  function Strip(s: string): string {
    TrimRight(TrimLeft(s))
  }

  predicate StartsWith(s: string, p: string) {
    p <= s
  }

  function FirstColon(s: string): (i: nat)
    ensures i <= |s| && (i < |s| ==> s[i] == ':') && forall k | 0 <= k < i :: s[k] != ':'
  {
    if s == "" || s[0] == ':' then 0 else FirstColon(s[1..]) + 1
  }

  predicate Quoted(v: string, q: char) {
    v != "" && v[0] == q && v[|v| - 1] == q
  }

  /** value[1:-1] */
  function Inside(v: string): string {
    if |v| < 2 then "" else v[1..|v| - 1]
  }

  datatype Pair = Pair(key: string, value: string)

  /** split_kv; None where Python raises ValueError because the line has no colon. */
  function SplitKV(line: string): Option<Pair> {
    var c := FirstColon(line);
    if c == |line| then None
    else
      var value := Strip(line[c + 1..]);
      Some(Pair(Strip(line[..c]), if Quoted(value, '"') || Quoted(value, '\'') then Inside(value) else value))
  }

  // ---------- the parser ----------

  type Record = map<string, string>

  /** The records finished so far and the one being read. */
  datatype State = State(done: seq<Record>, current: Option<Record>)

  /** Appending the current record, unless there is none or it is empty. */
  function Closed(s: State): seq<Record> {
    if s.current.Some? && s.current.value != map[] then s.done + [s.current.value] else s.done
  }

  /** One line of the file; None where Python raises ValueError. */
  function Step(s: State, raw: string): Option<State> {
    var line := Strip(raw);
    if line == "" || StartsWith(line, "#") then Some(s)
    else if StartsWith(line, "version:") || StartsWith(line, "exceptions:") then Some(s)
    else if StartsWith(line, "- ") then
      var rest := Strip(line[2..]);
      if rest == "" then Some(State(Closed(s), Some(map[])))
      else match SplitKV(rest)
        case None => None
        case Some(p) => Some(State(Closed(s), Some(map[p.key := p.value])))
    else if s.current.Some? && ':' in line then
      match SplitKV(line)
      case None => None
      case Some(p) => Some(s.(current := Some(s.current.value[p.key := p.value])))
    else Some(s)
  }

  function Steps(s: State, lines: seq<string>): Option<State> {
    if lines == [] then Some(s)
    else match Steps(s, lines[..|lines| - 1])
      case None => None
      case Some(s') => Step(s', lines[|lines| - 1])
  }

  const START := State([], None)

  /** What parse_exceptions returns for the lines of a file. */
  function Parsed(lines: seq<string>): Option<seq<Record>> {
    match Steps(START, lines) case None => None case Some(s) => Some(Closed(s))
  }

  /** parse_exceptions. */
  method ParseExceptions(lines: seq<string>) returns (r: Option<seq<Record>>)
    ensures r == Parsed(lines)
  {
    var exceptions, current: Option<Record> := [], None;
    for i := 0 to |lines|
      invariant Steps(START, lines[..i]) == Some(State(exceptions, current))
    {
      assert lines[..i + 1][..i] == lines[..i];
      var line := Strip(lines[i]);
      if line == "" || StartsWith(line, "#") {
        continue;
      }
      if StartsWith(line, "version:") || StartsWith(line, "exceptions:") {
        continue;
      }
      if StartsWith(line, "- ") {
        if current.Some? && current.value != map[] {
          exceptions := exceptions + [current.value];
        }
        current := Some(map[]);
        line := Strip(line[2..]);
        if line != "" {
          var p := SplitKV(line);
          if p.None? {
            FailsForGood(START, lines, i + 1);
            return None;
          }
          current := Some(map[p.value.key := p.value.value]);
        }
        continue;
      }
      if current.Some? && ':' in line {
        var p := SplitKV(line);
        current := Some(current.value[p.value.key := p.value.value]);
      }
    }
    assert lines[..|lines|] == lines;
    if current.Some? && current.value != map[] {
      exceptions := exceptions + [current.value];
    }
    r := Some(exceptions);
  }

  lemma {:induction false} FailsForGood(s: State, lines: seq<string>, k: nat)
    requires k <= |lines| && Steps(s, lines[..k]) == None
    ensures Steps(s, lines) == None
    decreases |lines|
  {
    if k < |lines| {
      assert lines[..|lines| - 1][..k] == lines[..k];
      FailsForGood(s, lines[..|lines| - 1], k);
    } else {
      assert lines[..k] == lines;
    }
  }

  lemma {:induction false} StepsConcat(s: State, a: seq<string>, b: seq<string>)
    ensures Steps(s, a + b) == match Steps(s, a) case None => None case Some(s') => Steps(s', b)
  {
    if b == [] {
      assert a + b == a;
    } else {
      var n := |b| - 1;
      StepsConcat(s, a, b[..n]);
      assert (a + b)[..|a + b| - 1] == a + b[..n];
    }
  }

  // ---------- lines that change nothing ----------

  /** Blank lines, comments, `version:` and `exceptions:` lines, and lines that are neither an item nor a field. */
  predicate Noise(raw: string) {
    var line := Strip(raw);
    || line == "" || StartsWith(line, "#") || StartsWith(line, "version:") || StartsWith(line, "exceptions:")
    || (!StartsWith(line, "- ") && ':' !in line)
  }

  /** The lines that are left when the noise is taken out. */
  function Signal(lines: seq<string>): seq<string> {
    Filter(lines, (raw: string) => !Noise(raw))
  }

  /** Noise anywhere in a file leaves what it parses to unchanged. */
  lemma {:induction false} NoiseIsIgnored(s: State, lines: seq<string>)
    ensures Steps(s, lines) == Steps(s, Signal(lines))
  {
    if lines != [] {
      NoiseIsIgnored(s, lines[..|lines| - 1]);
      var last := lines[|lines| - 1];
      if !Noise(last) {
        var before := Signal(lines[..|lines| - 1]);
        assert (before + [last])[..|before|] == before;
      }
    }
  }
}
