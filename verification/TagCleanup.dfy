/** The Docker Hub tag cleanup: collect every page, check the guards, delete what is obsolete. */
module TagCleanup {
  import opened Collections

  // ---------- what the registry answers ----------

  datatype Platform = Platform(os: Option<string>, architecture: Option<string>)

  const REQUIRED: set<Platform> := {Platform(Some("linux"), Some("amd64")), Platform(Some("linux"), Some("arm64"))}

  /** images: None when the key is absent or cannot be iterated. */
  datatype Tag = Tag(digest: Option<string>, images: Option<seq<Platform>>)

  /** name: None when the key is absent. */
  datatype Entry = Entry(name: Option<string>, tag: Tag)

  /** results: None when the key is absent; more: `next` is truthy. */
  datatype Response = Failed | Page(results: Option<seq<Entry>>, more: bool)

  /** What becomes of a DELETE: applied, refused, or applied with the answer lost on the way back. */
  datatype Fate = Done | Refused | Lost

  class Hub {
    const fate: string -> Fate
    var registry: map<string, Tag>
    /** The DELETE requests issued so far. */
    var deletes: seq<string>
    /** The registry after each of them. */
    ghost var history: seq<map<string, Tag>>

    constructor (registry: map<string, Tag>, fate: string -> Fate)
      ensures this.registry == registry && this.fate == fate && deletes == [] && history == []
    {
      this.registry, this.fate, deletes, history := registry, fate, [], [];
    }

    /** request(..., "DELETE"); not ok where Python raises. */
    method Delete(name: string) returns (ok: bool)
      modifies this
      ensures ok <==> fate(name) == Done
      ensures registry == Purged(old(registry), [name], fate)
      ensures registry == if fate(name) == Refused then old(registry) else old(registry) - {name}
      ensures deletes == old(deletes) + [name] && history == old(history) + [registry]
    {
      if fate(name) != Refused {
        registry := registry - {name};
      }
      deletes := deletes + [name];
      history := history + [registry];
      ok := fate(name) == Done;
    }
  }

  /** The registry once these deletes have been issued. */
  function Purged(registry: map<string, Tag>, names: seq<string>, fate: string -> Fate): map<string, Tag> {
    registry - (set n | n in names && fate(n) != Refused)
  }

  /** The registry after each of these deletes. */
  function Snapshots(registry: map<string, Tag>, names: seq<string>, fate: string -> Fate): seq<map<string, Tag>> {
    if names == [] then []
    else Snapshots(registry, names[..|names| - 1], fate) + [Purged(registry, names, fate)]
  }

  // ---------- the commit and the tags to keep ----------

  predicate Hex(c: char) {
    '0' <= c <= '9' || 'a' <= c <= 'f'
  }

  predicate ValidSha(sha: string) {
    |sha| == 40 && forall i | 0 <= i < |sha| :: Hex(sha[i])
  }

  function Keep(sha: string): set<string> {
    {"latest", "sha-" + sha}
  }

  // ---------- collecting the pages ----------

  /** tags.update(...); None where Python raises because an entry has no name. */
  function Update(tags: map<string, Tag>, results: seq<Entry>): Option<map<string, Tag>>
    decreases |results|
  {
    if results == [] then Some(tags)
    else match results[0].name
      case None => None
      case Some(name) => Update(tags[name := results[0].tag], results[1..])
  }

  /** The loop over pages from the tags collected so far; running out of responses counts as a failed request. */
  function CollectFrom(tags: map<string, Tag>, responses: seq<Response>): Option<map<string, Tag>>
    decreases |responses|
  {
    if responses == [] || responses[0].Failed? || responses[0].results.None? then None
    else match Update(tags, responses[0].results.value)
      case None => None
      case Some(tags') => if responses[0].more then CollectFrom(tags', responses[1..]) else Some(tags')
  }

  method Collect(responses: seq<Response>) returns (r: Option<map<string, Tag>>)
    ensures r == CollectFrom(map[], responses)
  {
    var tags: map<string, Tag> := map[];
    var i, page := 0, true;
    while page
      invariant i <= |responses|
      invariant CollectFrom(map[], responses) == if page then CollectFrom(tags, responses[i..]) else Some(tags)
      decreases |responses| - i, page
    {
      if i == |responses| || responses[i].Failed? || responses[i].results.None? {
        return None;
      }
      var updated := Update(tags, responses[i].results.value);
      if updated.None? {
        return None;
      }
      tags, page := updated.value, responses[i].more;
      i := i + 1;
    }
    r := Some(tags);
  }

  /** The entries of a complete listing, page after page. */
  function Listed(responses: seq<Response>): seq<Entry> {
    if responses == [] || responses[0].Failed? || responses[0].results.None? then []
    else responses[0].results.value + if responses[0].more then Listed(responses[1..]) else []
  }

  /** The pages follow each other to one without a successor, and every entry on them has a name. */
  predicate Complete(responses: seq<Response>) {
    && responses != [] && responses[0].Page? && responses[0].results.Some?
    && (forall i | 0 <= i < |responses[0].results.value| :: responses[0].results.value[i].name.Some?)
    && (responses[0].more ==> Complete(responses[1..]))
  }

  /** The tag of the last entry with this name. */
  function LastTag(entries: seq<Entry>, name: string): Option<Tag> {
    if entries == [] then None
    else if entries[|entries| - 1].name == Some(name) then Some(entries[|entries| - 1].tag)
    else LastTag(entries[..|entries| - 1], name)
  }

  lemma {:induction false} LastTagMeaning(entries: seq<Entry>, name: string)
    ensures LastTag(entries, name).Some? ==> Entry(Some(name), LastTag(entries, name).value) in entries
    ensures LastTag(entries, name).None? ==> forall e | e in entries :: e.name != Some(name)
  {
    if entries != [] {
      var n := |entries| - 1;
      LastTagMeaning(entries[..n], name);
      assert entries == entries[..n] + [entries[n]];
    }
  }

  function Lookup(tags: map<string, Tag>, name: string): Option<Tag> {
    if name in tags then Some(tags[name]) else None
  }

  /** A later entry overrides earlier ones and what was there before. */
  lemma {:induction false} UpdateMeaning(tags: map<string, Tag>, entries: seq<Entry>, name: string)
    requires forall i | 0 <= i < |entries| :: entries[i].name.Some?
    ensures Update(tags, entries).Some?
    ensures Lookup(Update(tags, entries).value, name) ==
            if LastTag(entries, name).Some? then LastTag(entries, name) else Lookup(tags, name)
  {
    if entries != [] {
      var n := |entries| - 1;
      UpdateMeaning(tags, entries[..n], name);
      UpdateConcat(tags, entries[..n], [entries[n]]);
      assert entries == entries[..n] + [entries[n]];
      assert Update(Update(tags, entries[..n]).value, [entries[n]])
          == Some(Update(tags, entries[..n]).value[entries[n].name.value := entries[n].tag]);
    }
  }

  lemma {:induction false} UpdateConcat(tags: map<string, Tag>, a: seq<Entry>, b: seq<Entry>)
    ensures Update(tags, a + b) == match Update(tags, a) case None => None case Some(t) => Update(t, b)
    decreases |a|
  {
    if a == [] {
      assert a + b == b;
    } else {
      assert (a + b)[0] == a[0] && (a + b)[1..] == a[1..] + b;
      if a[0].name.Some? {
        UpdateConcat(tags[a[0].name.value := a[0].tag], a[1..], b);
      }
    }
  }

  /** A complete listing is collected as one long page. */
  lemma {:induction false} CollectIsOneUpdate(tags: map<string, Tag>, responses: seq<Response>)
    requires Complete(responses)
    ensures CollectFrom(tags, responses) == Update(tags, Listed(responses))
    ensures CollectFrom(tags, responses).Some?
    decreases |responses|
  {
    var results := responses[0].results.value;
    UpdateMeaning(tags, results, "");
    var tags' := Update(tags, results).value;
    if responses[0].more {
      UpdateConcat(tags, results, Listed(responses[1..]));
      CollectIsOneUpdate(tags', responses[1..]);
    } else {
      assert results + [] == results;
    }
  }

  // ---------- the guards ----------

  datatype Problem =
    | BadSha | LoginFailed | ListingFailed | TagsMissing | NotLatest | NoImages | PlatformsMissing
    | DeleteFailed(name: string)

  datatype Result = Ok(obsolete: seq<string>) | Err(problem: Problem)

  /** The tag latest has the same non-empty digest as the tag of the commit. */
  predicate SameImage(tags: map<string, Tag>, sha: string)
    requires Keep(sha) <= tags.Keys
  {
    assert "latest" in Keep(sha) && "sha-" + sha in Keep(sha);
    var digest := tags["sha-" + sha].digest;
    digest.Some? && digest.value != "" && tags["latest"].digest == digest
  }

  predicate MultiPlatform(tag: Tag) {
    tag.images.Some? && REQUIRED <= (set p | p in tag.images.value)
  }

  /** Both tags are there, they are the same non-empty image, and it has the required platforms. */
  predicate Guarded(tags: map<string, Tag>, sha: string) {
    Keep(sha) <= tags.Keys && SameImage(tags, sha) && MultiPlatform(tags["sha-" + sha])
  }

  /** The first guard that does not hold is the one a guard's error names. */
  predicate Explains(problem: Problem, tags: map<string, Tag>, sha: string) {
    match problem
    case TagsMissing => !(Keep(sha) <= tags.Keys)
    case NotLatest => Keep(sha) <= tags.Keys && !SameImage(tags, sha)
    case NoImages => Keep(sha) <= tags.Keys && SameImage(tags, sha) && tags["sha-" + sha].images.None?
    case PlatformsMissing =>
      && Keep(sha) <= tags.Keys && SameImage(tags, sha)
      && tags["sha-" + sha].images.Some? && !MultiPlatform(tags["sha-" + sha])
    case _ => true
  }

  method Check(tags: map<string, Tag>, sha: string) returns (problem: Option<Problem>)
    ensures problem.None? <==> Guarded(tags, sha)
    ensures problem.Some? ==> problem.value in {TagsMissing, NotLatest, NoImages, PlatformsMissing}
    ensures problem.Some? ==> Explains(problem.value, tags, sha)
  {
    if !(Keep(sha) <= tags.Keys) {
      return Some(TagsMissing);
    }
    assert "latest" in Keep(sha) && "sha-" + sha in Keep(sha);
    var current := tags["sha-" + sha];
    var digest := current.digest;
    if digest.None? || digest.value == "" || tags["latest"].digest != digest {
      return Some(NotLatest);
    }
    if current.images.None? {
      return Some(NoImages);
    }
    var platforms := set p | p in current.images.value;
    if !(REQUIRED <= platforms) {
      return Some(PlatformsMissing);
    }
    return None;
  }

  // ---------- sorted(set(tags) - keep) ----------

  /** Strict order of strings by code point. */
  predicate Less(a: string, b: string) {
    b != "" && (a == "" || a[0] < b[0] || (a[0] == b[0] && Less(a[1..], b[1..])))
  }

  lemma {:induction false} LessTrichotomy(a: string, b: string)
    ensures Less(a, b) || Less(b, a) || a == b
    ensures !(Less(a, b) && Less(b, a)) && !Less(a, a)
  {
    if a != "" {
      LessTrichotomy(a[1..], a[1..]);
      if b != "" {
        LessTrichotomy(a[1..], b[1..]);
        assert a == [a[0]] + a[1..] && b == [b[0]] + b[1..];
      }
    }
  }

  lemma {:induction false} LessTransitive(a: string, b: string, c: string)
    requires Less(a, b) && Less(b, c)
    ensures Less(a, c)
  {
    if a != "" && a[0] == b[0] && b[0] == c[0] {
      LessTransitive(a[1..], b[1..], c[1..]);
    }
  }

  predicate LeastOf(names: set<string>, m: string) {
    m in names && forall n | n in names && n != m :: Less(m, n)
  }

  lemma {:induction false} LeastExists(names: set<string>)
    requires names != {}
    ensures exists m :: LeastOf(names, m)
    ensures forall m, m' | LeastOf(names, m) && LeastOf(names, m') :: m == m'
    decreases |names|
  {
    forall m, m' | LeastOf(names, m) && LeastOf(names, m')
      ensures m == m'
    {
      LessTrichotomy(m, m');
    }
    var n :| n in names;
    var rest := names - {n};
    if rest == {} {
      assert names == rest + {n};
      assert LeastOf(names, n);
    } else {
      LeastExists(rest);
      var m :| LeastOf(rest, m);
      LessTrichotomy(m, n);
      if Less(m, n) {
        assert LeastOf(names, m);
      } else {
        forall k | k in names && k != n
          ensures Less(n, k)
        {
          if k != m {
            LessTransitive(n, m, k);
          }
        }
        assert LeastOf(names, n);
      }
    }
  }

  /** sorted(names) */
  function Sorted(names: set<string>): seq<string>
    decreases |names|
  {
    if names == {} then []
    else
      LeastExists(names);
      var m :| LeastOf(names, m);
      [m] + Sorted(names - {m})
  }

  ghost predicate Ascending(s: seq<string>) {
    forall i, j | 0 <= i < j < |s| :: Less(s[i], s[j])
  }

  /** Every name once, in ascending order. */
  lemma {:induction false} SortedMeaning(names: set<string>)
    ensures Ascending(Sorted(names)) && Distinct(Sorted(names))
    ensures forall n :: n in Sorted(names) <==> n in names
    decreases |names|
  {
    if names != {} {
      LeastExists(names);
      var m :| LeastOf(names, m);
      SortedMeaning(names - {m});
      SortedFrom(names, m, Sorted(names - {m}));
    }
  }

  /** The least name in front of the others in order. */
  lemma SortedFrom(names: set<string>, m: string, rest: seq<string>)
    requires LeastOf(names, m) && Ascending(rest) && Distinct(rest)
    requires forall n :: n in rest <==> n in names - {m}
    ensures Ascending([m] + rest) && Distinct([m] + rest)
    ensures forall n :: n in [m] + rest <==> n in names
  {
    hide Less;
    assert forall i | 0 <= i < |rest| :: rest[i] in rest;
  }

  // ---------- cleanup ----------

  function Obsolete(tags: map<string, Tag>, sha: string): seq<string> {
    Sorted(tags.Keys - Keep(sha))
  }

  /** What has to hold before the first delete. */
  predicate Cleared(sha: string, login: bool, responses: seq<Response>) {
    && ValidSha(sha) && login
    && CollectFrom(map[], responses).Some?
    && Guarded(CollectFrom(map[], responses).value, sha)
  }

  /** cleanup(delete), for the value of GITHUB_SHA, the outcome of the login and the responses to the page requests. */
  method Cleanup(hub: Hub, sha: string, delete: bool, login: bool, responses: seq<Response>)
    returns (r: Result, ghost issued: seq<string>)
    modifies hub
    ensures hub.deletes == old(hub.deletes) + issued
    ensures hub.registry == Purged(old(hub.registry), issued, hub.fate)
    ensures hub.history == old(hub.history) + Snapshots(old(hub.registry), issued, hub.fate)
    ensures issued != [] ==> delete && Cleared(sha, login, responses)
    ensures issued != [] ==> issued <= Obsolete(CollectFrom(map[], responses).value, sha)
    ensures r.Ok? <==> Succeeds(hub.fate, sha, delete, login, responses)
    ensures r.Ok? ==> r.obsolete == Obsolete(CollectFrom(map[], responses).value, sha)
                      && issued == if delete then r.obsolete else []
    ensures r == Err(BadSha) <==> !ValidSha(sha)
    ensures r == Err(LoginFailed) <==> ValidSha(sha) && delete && !login
    ensures r == Err(ListingFailed) <==> ValidSha(sha) && (delete ==> login) && CollectFrom(map[], responses).None?
    ensures r.Err? && r.problem in {TagsMissing, NotLatest, NoImages, PlatformsMissing} <==>
            && ValidSha(sha) && (delete ==> login) && CollectFrom(map[], responses).Some?
            && !Guarded(CollectFrom(map[], responses).value, sha)
    ensures r.Err? && CollectFrom(map[], responses).Some? ==>
              Explains(r.problem, CollectFrom(map[], responses).value, sha)
    ensures r.Err? && r.problem.DeleteFailed? <==> delete && Cleared(sha, login, responses) && !r.Ok?
    ensures r.Err? && r.problem.DeleteFailed? ==>
              issued != [] && r.problem.name == issued[|issued| - 1] && hub.fate(r.problem.name) != Done
              && forall i | 0 <= i < |issued| - 1 :: hub.fate(issued[i]) == Done
  {
    issued := [];
    if !ValidSha(sha) {
      return Err(BadSha), issued;
    }
    if delete && !login {
      return Err(LoginFailed), issued;
    }
    var tags := Collect(responses);
    if tags.None? {
      return Err(ListingFailed), issued;
    }
    var problem := Check(tags.value, sha);
    if problem.Some? {
      return Err(problem.value), issued;
    }
    var obsolete := Obsolete(tags.value, sha);
    if delete {
      var failed;
      failed, issued := DeleteAll(hub, obsolete);
      if failed.Some? {
        return Err(DeleteFailed(failed.value)), issued;
      }
    }
    return Ok(obsolete), issued;
  }

  predicate Succeeds(fate: string -> Fate, sha: string, delete: bool, login: bool, responses: seq<Response>) {
    && Cleared(sha, !delete || login, responses)
    && (delete ==> forall n | n in Obsolete(CollectFrom(map[], responses).value, sha) :: fate(n) == Done)
  }

  /** The delete loop: it stops at the first request that raises. */
  method DeleteAll(hub: Hub, obsolete: seq<string>) returns (failed: Option<string>, ghost issued: seq<string>)
    modifies hub
    ensures issued <= obsolete && hub.deletes == old(hub.deletes) + issued
    ensures hub.registry == Purged(old(hub.registry), issued, hub.fate)
    ensures hub.history == old(hub.history) + Snapshots(old(hub.registry), issued, hub.fate)
    ensures failed.None? ==> issued == obsolete && forall n | n in obsolete :: hub.fate(n) == Done
    ensures failed.Some? ==>
              issued != [] && failed.value == issued[|issued| - 1] && hub.fate(failed.value) != Done
              && forall i | 0 <= i < |issued| - 1 :: hub.fate(issued[i]) == Done
  {
    issued := [];
    for k := 0 to |obsolete|
      invariant issued == obsolete[..k] && hub.deletes == old(hub.deletes) + issued
      invariant hub.registry == Purged(old(hub.registry), issued, hub.fate)
      invariant hub.history == old(hub.history) + Snapshots(old(hub.registry), issued, hub.fate)
      invariant forall i | 0 <= i < k :: hub.fate(issued[i]) == Done
    {
      var name := obsolete[k];
      var ok := hub.Delete(name);
      assert obsolete[..k + 1] == issued + [name] && (issued + [name])[..k] == issued;
      PurgedOneMore(old(hub.registry), issued, name, hub.fate);
      issued := issued + [name];
      if !ok {
        return Some(name), issued;
      }
    }
    return None, issued;
  }

  lemma PurgedOneMore(registry: map<string, Tag>, names: seq<string>, name: string, fate: string -> Fate)
    ensures Purged(registry, names + [name], fate) == Purged(Purged(registry, names, fate), [name], fate)
  {
  }

  // ---------- what is left in the registry ----------

  /** The snapshot after delete i is the registry purged of the first i + 1 names. */
  lemma {:induction false} SnapshotMeaning(registry: map<string, Tag>, names: seq<string>, fate: string -> Fate, i: nat)
    requires i < |names|
    ensures |Snapshots(registry, names, fate)| == |names|
    ensures Snapshots(registry, names, fate)[i] == Purged(registry, names[..i + 1], fate)
    decreases |names|
  {
    var n := |names| - 1;
    if n > 0 {
      SnapshotMeaning(registry, names[..n], fate, if i < n then i else 0);
    }
    if i < n {
      assert names[..n][..i + 1] == names[..i + 1];
    } else {
      assert names[..i + 1] == names;
    }
  }

  /** After every delete of a run, however far it gets, the kept tags are in the registry as they were. */
  lemma KeptAfterEveryDelete(registry: map<string, Tag>, tags: map<string, Tag>, sha: string, fate: string -> Fate,
                             issued: seq<string>, i: nat)
    requires issued <= Obsolete(tags, sha) && i < |Snapshots(registry, issued, fate)|
    ensures |Snapshots(registry, issued, fate)| == |issued|
    ensures var left := Snapshots(registry, issued, fate)[i];
            forall k | k in Keep(sha) && k in registry :: k in left && left[k] == registry[k]
  {
    hide Keep;
    if issued != [] {
      SnapshotMeaning(registry, issued, fate, if i < |issued| then i else 0);
      SortedMeaning(tags.Keys - Keep(sha));
      forall k | k in issued[..i + 1]
        ensures k !in Keep(sha)
      {
        assert k in Obsolete(tags, sha);
      }
    }
  }

  /** The responses are complete and list the registry as it is; a tag may be listed more than once. */
  ghost predicate Lists(responses: seq<Response>, registry: map<string, Tag>) {
    && Complete(responses)
    && (forall e | e in Listed(responses) ::
        e.name.Some? && e.name.value in registry && registry[e.name.value] == e.tag)
    && (forall n | n in registry :: Entry(Some(n), registry[n]) in Listed(responses))
  }

  /** A complete listing of a registry nobody else changes is collected as the registry itself. */
  lemma ListingIsTheRegistry(registry: map<string, Tag>, responses: seq<Response>)
    requires Lists(responses, registry)
    ensures CollectFrom(map[], responses) == Some(registry)
  {
    CollectIsOneUpdate(map[], responses);
    var entries := Listed(responses);
    assert forall i | 0 <= i < |entries| :: entries[i] in entries;
    var tags := CollectFrom(map[], responses).value;
    forall n
      ensures Lookup(tags, n) == Lookup(registry, n)
    {
      UpdateMeaning(map[], entries, n);
      LastTagMeaning(entries, n);
    }
    MapsEqual(tags, registry);
  }

  lemma MapsEqual(a: map<string, Tag>, b: map<string, Tag>)
    requires forall n :: Lookup(a, n) == Lookup(b, n)
    ensures a == b
  {
    assert forall n :: (n in a <==> n in b) by {
      forall n
        ensures n in a <==> n in b
      {
        assert Lookup(a, n) == Lookup(b, n);
      }
    }
    assert forall n | n in a :: Lookup(a, n) == Lookup(b, n);
  }

  /** With no concurrent change and no failed request, exactly the kept tags are left. */
  lemma ExactlyTheKeptAreLeft(registry: map<string, Tag>, sha: string, fate: string -> Fate)
    requires Guarded(registry, sha) && forall n | n in Obsolete(registry, sha) :: fate(n) == Done
    ensures Purged(registry, Obsolete(registry, sha), fate).Keys == Keep(sha)
  {
    SortedMeaning(registry.Keys - Keep(sha));
    forall n
      ensures n in Purged(registry, Obsolete(registry, sha), fate) <==> n in Keep(sha)
    {
      assert n in Obsolete(registry, sha) <==> n in registry.Keys - Keep(sha);
    }
  }

  /** A run that succeeds on a faithful listing leaves exactly the kept tags, both still the same image. */
  lemma CleanRunLeavesExactlyTheKept(
    registry: map<string, Tag>, sha: string, fate: string -> Fate, responses: seq<Response>)
    requires Lists(responses, registry) && Succeeds(fate, sha, true, true, responses)
    ensures var left := Purged(registry, Obsolete(CollectFrom(map[], responses).value, sha), fate);
            left.Keys == Keep(sha) && SameImage(left, sha)
  {
    ListingIsTheRegistry(registry, responses);
    ExactlyTheKeptAreLeft(registry, sha, fate);
  }

  // ---------- the guards and the order, spelled out ----------

  /** Forty characters, each a lower-case hexadecimal digit. */
  lemma ValidShaMeaning(sha: string)
    ensures ValidSha(sha) <==> |sha| == 40 && forall c | c in sha :: c in "0123456789abcdef"
  {
    forall c: char
      ensures Hex(c) <==> c in "0123456789abcdef"
    {
      HexDigits(c);
    }
    assert forall i | 0 <= i < |sha| :: sha[i] in sha;
  }

  lemma HexDigits(c: char)
    ensures Hex(c) <==> c in "0123456789abcdef"
  {
    if Hex(c) {
      var digits := "0123456789abcdef";
      var k := if c <= '9' then c as int - '0' as int else c as int - 'a' as int + 10;
      assert digits[k] == c;
    }
  }

  /** Both tags, one non-empty digest, and images for linux on both architectures. */
  lemma GuardedMeaning(tags: map<string, Tag>, sha: string)
    ensures Guarded(tags, sha) <==>
            && "latest" in tags && "sha-" + sha in tags
            && tags["sha-" + sha].digest.Some? && tags["sha-" + sha].digest.value != ""
            && tags["latest"].digest == tags["sha-" + sha].digest
            && tags["sha-" + sha].images.Some?
            && Platform(Some("linux"), Some("amd64")) in tags["sha-" + sha].images.value
            && Platform(Some("linux"), Some("arm64")) in tags["sha-" + sha].images.value
  {
    KeepMeaning(tags, sha);
    if "sha-" + sha in tags && tags["sha-" + sha].images.Some? {
      RequiredMeaning(tags["sha-" + sha].images.value);
    }
    hide REQUIRED, Keep;
  }

  lemma KeepMeaning(tags: map<string, Tag>, sha: string)
    ensures Keep(sha) <= tags.Keys <==> "latest" in tags && "sha-" + sha in tags
    ensures forall n :: n in Keep(sha) <==> n == "latest" || n == "sha-" + sha
  {
  }

  lemma RequiredMeaning(images: seq<Platform>)
    ensures REQUIRED <= (set p | p in images) <==>
            && Platform(Some("linux"), Some("amd64")) in images
            && Platform(Some("linux"), Some("arm64")) in images
  {
    assert Platform(Some("linux"), Some("amd64")) in REQUIRED && Platform(Some("linux"), Some("arm64")) in REQUIRED;
  }

  /** Obsolete is every tag besides the two. */
  lemma ObsoleteMeaning(tags: map<string, Tag>, sha: string)
    ensures forall n :: n in Obsolete(tags, sha) <==> n in tags && n != "latest" && n != "sha-" + sha
  {
    KeepMeaning(tags, sha);
    SortedMeaning(tags.Keys - Keep(sha));
    hide Keep, Sorted;
  }

  /** a comes before b: it is a proper prefix, or smaller where they first differ. */
  lemma {:induction false} LessMeaning(a: string, b: string)
    ensures Less(a, b) <==> a < b || exists k :: DiffersAt(a, b, k) && a[k] < b[k]
  {
    if a != "" && b != "" {
      var x, y := a[1..], b[1..];
      LessMeaning(x, y);
      assert a == [a[0]] + x && b == [b[0]] + y;
      if a[0] == b[0] {
        assert a < b <==> x < y;
        forall k
          ensures DiffersAt(a, b, k) <==> k >= 1 && DiffersAt(x, y, k - 1)
        {
          DiffersLater(a, b, k);
        }
        if k :| DiffersAt(x, y, k) && x[k] < y[k] {
          assert DiffersAt(a, b, k + 1);
        }
      } else {
        assert DiffersAt(a, b, 0);
        assert forall k :: DiffersAt(a, b, k) ==> k == 0;
      }
    }
  }

  ghost predicate DiffersAt(a: string, b: string, k: int) {
    0 <= k < |a| && k < |b| && a[..k] == b[..k] && a[k] != b[k]
  }

  lemma DiffersLater(a: string, b: string, k: int)
    requires a != "" && b != "" && a[0] == b[0]
    ensures DiffersAt(a, b, k) <==> k >= 1 && DiffersAt(a[1..], b[1..], k - 1)
  {
    if 1 <= k < |a| && k < |b| {
      assert a[..k] == [a[0]] + a[1..][..k - 1] && b[..k] == [b[0]] + b[1..][..k - 1];
      assert a[..k] == b[..k] ==> a[..k][1..] == b[..k][1..];
    }
  }

  /** The listing is collected exactly when it is complete. */
  lemma {:induction false} CollectedIff(tags: map<string, Tag>, responses: seq<Response>)
    ensures CollectFrom(tags, responses).Some? <==> Complete(responses)
    decreases |responses|
  {
    if responses != [] && responses[0].Page? && responses[0].results.Some? {
      NamedIff(tags, responses[0].results.value);
      if Update(tags, responses[0].results.value).Some? && responses[0].more {
        CollectedIff(Update(tags, responses[0].results.value).value, responses[1..]);
      }
    }
  }

  lemma {:induction false} NamedIff(tags: map<string, Tag>, entries: seq<Entry>)
    ensures Update(tags, entries).Some? <==> forall i | 0 <= i < |entries| :: entries[i].name.Some?
    decreases |entries|
  {
    if entries != [] && entries[0].name.Some? {
      NamedIff(tags[entries[0].name.value := entries[0].tag], entries[1..]);
      assert forall i | 0 < i < |entries| :: entries[i] == entries[1..][i - 1];
    }
  }
}
