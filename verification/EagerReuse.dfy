/** Running a query with the same eager-load builders again: every run adds its key filter to the ones already there. */
module EagerReuse {
  import opened Collections
  import opened Entities
  import opened ToOneIndex
  import opened ToOneLoading
  import opened ToManyLoading

  /** A key passes every filter a builder has accumulated. */
  predicate Admitted(filters: seq<seq<int>>, key: int) {
    forall i | 0 <= i < |filters| :: key in filters[i]
  }

  function Passing<T>(keyOf: T -> Option<int>, filters: seq<seq<int>>): T -> bool {
    t => keyOf(t).Some? && Admitted(filters, keyOf(t).value)
  }

  /** The rows whose key, if they have one, passes every filter. */
  function Selected<T>(table: seq<T>, keyOf: T -> Option<int>, filters: seq<seq<int>>): seq<T> {
    Filter(table, Passing(keyOf, filters))
  }

  /** An eager-load builder over a table; its filters are the IN conditions that loaders added with Where. */
  class EdgeQuery<T> {
    const table: seq<T>
    const keyOf: T -> Option<int>
    var filters: seq<seq<int>>

    constructor (table: seq<T>, keyOf: T -> Option<int>)
      ensures this.table == table && this.keyOf == keyOf && filters == []
    {
      this.table, this.keyOf, filters := table, keyOf, [];
    }

    /** What All answers once a loader has added its ids. */
    function Answering(): seq<int> -> Answer<T>
      reads this
    {
      var (t, k, f) := (table, keyOf, filters);
      (ids: seq<int>) => Rows(Selected(t, k, f + [ids]))
    }

    method Where(ids: seq<int>)
      modifies this
      ensures filters == old(filters) + [ids]
    {
      filters := filters + [ids];
    }
  }

  lemma AdmittedSnoc(filters: seq<seq<int>>, ids: seq<int>, key: int)
    ensures Admitted(filters + [ids], key) <==> Admitted(filters, key) && key in ids
  {
    var more := filters + [ids];
    assert more[|filters|] == ids && forall i | 0 <= i < |filters| :: more[i] == filters[i];
    assert Admitted(more, key) ==> key in more[|filters|];
    assert Admitted(more, key) ==> forall i | 0 <= i < |filters| :: key in more[i];
  }

  /** A later run answers what a fresh builder would, exactly when no row it asks for was filtered out before. */
  lemma {:induction false} LaterRunIff<T>(table: seq<T>, keyOf: T -> Option<int>, earlier: seq<seq<int>>, ids: seq<int>)
    ensures |Selected(table, keyOf, earlier + [ids])| <= |Selected(table, keyOf, [ids])|
    ensures Selected(table, keyOf, earlier + [ids]) == Selected(table, keyOf, [ids]) <==>
            forall t | t in table && keyOf(t).Some? && keyOf(t).value in ids :: Admitted(earlier, keyOf(t).value)
  {
    if table != [] {
      var n := |table| - 1;
      var last := table[n];
      LaterRunIff(table[..n], keyOf, earlier, ids);
      assert table == table[..n] + [last];
      if keyOf(last).Some? {
        AdmittedSnoc(earlier, ids, keyOf(last).value);
        AdmittedSnoc([], ids, keyOf(last).value);
        assert [] + [ids] == [ids];
      }
      SnocEqual(Selected(table[..n], keyOf, earlier + [ids]), Selected(table[..n], keyOf, [ids]), last);
    }
  }

  lemma SnocEqual<T>(s: seq<T>, t: seq<T>, x: T)
    ensures s + [x] == t + [x] <==> s == t
  {
    if s + [x] == t + [x] {
      assert s == (s + [x])[..|s + [x]| - 1] == (t + [x])[..|t + [x]| - 1] == t;
    }
  }

  /** What one key finds: all it would find without the earlier filters, or nothing. */
  lemma {:induction false} FoundByKey<T>(
    table: seq<T>, keyOf: T -> Option<int>, mine: T -> bool, filters: seq<seq<int>>, key: int)
    requires forall t | t in table :: mine(t) <==> keyOf(t) == Some(key)
    ensures Filter(Selected(table, keyOf, filters), mine)
         == if Admitted(filters, key) then Filter(table, mine) else []
  {
    if table != [] {
      assert table == table[..|table| - 1] + [table[|table| - 1]];
      FoundByKey(table[..|table| - 1], keyOf, mine, filters, key);
      var before := Selected(table[..|table| - 1], keyOf, filters);
      assert (before + [table[|table| - 1]])[..|before|] == before;
    }
  }

  lemma {:induction false} MatchedByKey<T>(
    table: seq<T>, keyOf: T -> Option<int>, idOf: T -> int, filters: seq<seq<int>>, key: int)
    requires forall t | t in table :: keyOf(t) == Some(idOf(t))
    ensures Match(Selected(table, keyOf, filters), idOf, Some(key))
         == if Admitted(filters, key) then Match(table, idOf, Some(key)) else None
  {
    if table != [] {
      assert table == table[..|table| - 1] + [table[|table| - 1]];
      MatchedByKey(table[..|table| - 1], keyOf, idOf, filters, key);
      var before := Selected(table[..|table| - 1], keyOf, filters);
      assert (before + [table[|table| - 1]])[..|before|] == before;
    }
  }

  // ---------- many-to-one loaders ----------

  /** What a key finds through a builder with these filters. */
  function Found<T>(table: seq<T>, idOf: T -> int, filters: seq<seq<int>>, key: Option<int>): Option<T> {
    if key.Some? && Admitted(filters, key.value) then Match(table, idOf, key) else None
  }

  lemma NoStraySelected<T>(
    table: seq<T>, keyOf: T -> Option<int>, idOf: T -> int, filters: seq<seq<int>>, ids: seq<int>)
    requires forall t | t in table :: keyOf(t) == Some(idOf(t))
    ensures Strays(Selected(table, keyOf, filters + [ids]), idOf, ids) == Done
  {
    var selected := Selected(table, keyOf, filters + [ids]);
    forall t | t in selected
      ensures !Unasked(idOf, ids)(t)
    {
      FilterMembers(table, Passing(keyOf, filters + [ids]), t);
      AdmittedSnoc(filters, ids, idOf(t));
    }
    FilterNone(selected, Unasked(idOf, ids));
  }

  lemma ResolvedIsFound<T>(
    keys: seq<Option<int>>, table: seq<T>, keyOf: T -> Option<int>, idOf: T -> int, filters: seq<seq<int>>,
    answering: seq<int> -> Answer<T>, key: Option<int>)
    requires key in keys && forall t | t in table :: keyOf(t) == Some(idOf(t))
    requires answering(KeysToFetch(keys)) == Rows(Selected(table, keyOf, filters + [KeysToFetch(keys)]))
    ensures Resolved(keys, answering, idOf, key) == Found(table, idOf, filters, key)
  {
    var ids := KeysToFetch(keys);
    if key.Some? {
      var k := key.value;
      SomesMembers(keys, k);
      FirstSeenMembers(Somes(keys), k);
      AdmittedSnoc(filters, ids, k);
      MatchedByKey(table, keyOf, idOf, filters + [ids], k);
    } else {
      MatchMeaning(Selected(table, keyOf, filters + [ids]), idOf, None);
    }
  }

  /** Found on a builder that one earlier run used, or none. */
  lemma FoundAfterOne<T>(table: seq<T>, idOf: T -> int, asked: seq<int>, key: Option<int>)
    ensures Found(table, idOf, [], key) == Match(table, idOf, key)
    ensures Found(table, idOf, [asked], key)
         == if key.Some? && key.value !in asked then None else Match(table, idOf, key)
  {
    MatchMeaning(table, idOf, key);
    assert [asked][0] == asked;
  }

  /** loadProxy on a builder that may have been used before. */
  method LoadProxyWith(nodes: seq<Account>, query: EdgeQuery<Proxy>) returns (r: LoadResult)
    requires forall p | p in query.table :: query.keyOf(p) == Some(p.id)
    modifies query, nodes`proxy
    ensures r == Done
    ensures query.filters == old(query.filters) + FilterOf(ProxyKeys(nodes))
    ensures forall n | n in nodes ::
              n.proxy == OrElse(Found(query.table, ProxyID, old(query.filters), n.proxyID), old(n.proxy))
  {
    var answering := query.Answering();
    var ids := KeysToFetch(ProxyKeys(nodes));
    NoStraySelected(query.table, query.keyOf, ProxyID, query.filters, ids);
    forall n | n in nodes
      ensures Resolved(ProxyKeys(nodes), answering, ProxyID, n.proxyID)
           == Found(query.table, ProxyID, query.filters, n.proxyID)
    {
      var i :| 0 <= i < |nodes| && nodes[i] == n;
      assert ProxyKeys(nodes)[i] == n.proxyID;
      ResolvedIsFound(ProxyKeys(nodes), query.table, query.keyOf, ProxyID, query.filters, answering, n.proxyID);
    }
    r := LoadProxy(nodes, answering);
    if ids != [] {
      query.Where(ids);
    }
  }

  /** The filter a many-to-one loader adds: none when there is nothing to ask for. */
  function FilterOf(keys: seq<Option<int>>): seq<seq<int>> {
    if KeysToFetch(keys) == [] then [] else [KeysToFetch(keys)]
  }

  /** What a key finds in the second of two runs on one builder: nothing if the first asked, but not for it. */
  function FoundSecond<T>(table: seq<T>, idOf: T -> int, asked: seq<int>, key: Option<int>): Option<T> {
    if asked != [] && key.Some? && key.value !in asked then None else Match(table, idOf, key)
  }

  /** Two runs on one builder: the second finds a proxy only for keys that the first asked for as well. */
  method LoadProxyTwice(first: seq<Account>, second: seq<Account>, query: EdgeQuery<Proxy>)
    requires query.filters == [] && forall p | p in query.table :: query.keyOf(p) == Some(p.id)
    requires forall n | n in first || n in second :: n.proxy == null
    requires forall n | n in second :: n !in first
    modifies query, first`proxy, second`proxy
    ensures forall n | n in first :: n.proxy == OrElse(Match(query.table, ProxyID, n.proxyID), null)
    ensures var asked := KeysToFetch(ProxyKeys(first));
            forall n | n in second :: n.proxy == OrElse(FoundSecond(query.table, ProxyID, asked, n.proxyID), null)
  {
    forall n | n in first || n in second {
      FoundAfterOne(query.table, ProxyID, KeysToFetch(ProxyKeys(first)), n.proxyID);
    }
    assert [] + FilterOf(ProxyKeys(first)) == FilterOf(ProxyKeys(first));
    var r := LoadProxyWith(first, query);
    r := LoadProxyWith(second, query);
  }

  /** loadParent on a builder that may have been used before. */
  method LoadParentWith(nodes: seq<Account>, query: EdgeQuery<Account>) returns (r: LoadResult)
    requires forall p | p in query.table :: query.keyOf(p) == Some(p.id)
    modifies query, nodes`parent
    ensures r == Done
    ensures query.filters == old(query.filters) + FilterOf(ParentKeys(nodes))
    ensures forall n | n in nodes ::
              n.parent == OrElse(Found(query.table, AccountID, old(query.filters), n.parentAccountID), old(n.parent))
  {
    var answering := query.Answering();
    var ids := KeysToFetch(ParentKeys(nodes));
    NoStraySelected(query.table, query.keyOf, AccountID, query.filters, ids);
    forall n | n in nodes
      ensures Resolved(ParentKeys(nodes), answering, AccountID, n.parentAccountID)
           == Found(query.table, AccountID, query.filters, n.parentAccountID)
    {
      var i :| 0 <= i < |nodes| && nodes[i] == n;
      assert ParentKeys(nodes)[i] == n.parentAccountID;
      ResolvedIsFound(ParentKeys(nodes), query.table, query.keyOf, AccountID, query.filters, answering,
                      n.parentAccountID);
    }
    r := LoadParent(nodes, answering);
    if ids != [] {
      query.Where(ids);
    }
  }

  /** The same for parents. */
  method LoadParentTwice(first: seq<Account>, second: seq<Account>, query: EdgeQuery<Account>)
    requires query.filters == [] && forall p | p in query.table :: query.keyOf(p) == Some(p.id)
    requires forall n | n in first || n in second :: n.parent == null
    requires forall n | n in second :: n !in first
    modifies query, first`parent, second`parent
    ensures forall n | n in first :: n.parent == OrElse(Match(query.table, AccountID, n.parentAccountID), null)
    ensures var asked := KeysToFetch(ParentKeys(first));
            forall n | n in second ::
              n.parent == OrElse(FoundSecond(query.table, AccountID, asked, n.parentAccountID), null)
  {
    forall n | n in first || n in second {
      FoundAfterOne(query.table, AccountID, KeysToFetch(ParentKeys(first)), n.parentAccountID);
    }
    assert [] + FilterOf(ParentKeys(first)) == FilterOf(ParentKeys(first));
    var r := LoadParentWith(first, query);
    r := LoadParentWith(second, query);
  }

  // ---------- children ----------

  lemma NoOrphanSelected(
    nodes: seq<Account>, table: seq<Account>, keyOf: Account -> Option<int>, filters: seq<seq<int>>)
    requires forall n | n in table :: keyOf(n) == n.parentAccountID
    ensures LoadChildrenOutcome(nodes, Selected(table, keyOf, filters + [IDs(nodes)])) == Done
  {
    var selected := Selected(table, keyOf, filters + [IDs(nodes)]);
    forall n | n in selected
      ensures !Orphan(nodes)(n)
    {
      FilterMembers(table, Passing(keyOf, filters + [IDs(nodes)]), n);
      AdmittedSnoc(filters, IDs(nodes), n.parentAccountID.value);
    }
    FilterNone(selected, Orphan(nodes));
  }

  /** loadChildren on a builder that may have been used before. */
  method LoadChildrenWith(nodes: seq<Account>, query: EdgeQuery<Account>) returns (r: LoadResult)
    requires forall n | n in query.table :: query.keyOf(n) == n.parentAccountID
    modifies query, nodes`children
    ensures r == Done && query.filters == old(query.filters) + [IDs(nodes)]
    ensures forall p | p in nodes ::
              p.children == if Owner(nodes, p.id) == p && Admitted(old(query.filters), p.id)
                            then Filter(query.table, ChildOf(p.id)) else []
  {
    NoOrphanSelected(nodes, query.table, query.keyOf, query.filters);
    forall p | p in nodes
      ensures Filter(Selected(query.table, query.keyOf, query.filters + [IDs(nodes)]), ChildOf(p.id))
           == if Admitted(query.filters, p.id) then Filter(query.table, ChildOf(p.id)) else []
    {
      var i :| 0 <= i < |nodes| && nodes[i] == p;
      assert IDs(nodes)[i] == p.id;
      AdmittedSnoc(query.filters, IDs(nodes), p.id);
      FoundByKey(query.table, query.keyOf, ChildOf(p.id), query.filters + [IDs(nodes)], p.id);
    }
    r := LoadChildren(nodes, query.Answering());
    query.Where(IDs(nodes));
  }

  /** Two runs on one builder: the second leaves an account without children unless the first loaded its id as well. */
  method LoadChildrenTwice(first: seq<Account>, second: seq<Account>, query: EdgeQuery<Account>)
    requires query.filters == [] && forall n | n in query.table :: query.keyOf(n) == n.parentAccountID
    requires forall n | n in second :: n !in first
    modifies query, first`children, second`children
    ensures forall p | p in first ::
              p.children == if Owner(first, p.id) == p then Filter(query.table, ChildOf(p.id)) else []
    ensures forall p | p in second ::
              p.children == if Owner(second, p.id) == p && p.id in IDs(first)
                            then Filter(query.table, ChildOf(p.id)) else []
  {
    forall p | p in second
      ensures Admitted([] + [IDs(first)], p.id) <==> p.id in IDs(first)
    {
      AdmittedSnoc([], IDs(first), p.id);
    }
    var r := LoadChildrenWith(first, query);
    r := LoadChildrenWith(second, query);
  }
}
