/** The many-to-one loaders: Account's loadProxy and loadParent (nullable keys) and AccountGroup's
  * loadGroup (a required key).
  */
module ToOneLoading {
  import opened Collections
  import opened Entities
  import opened ToOneIndex

  const ProxyID: Proxy -> int := (p: Proxy) => p.id
  const AccountID: Account -> int := (a: Account) => a.id
  const GroupID: Group -> int := (g: Group) => g.id

  // ---------- LoadProxy ----------

  function ProxyKeys(nodes: seq<Account>): (keys: seq<Option<int>>)
    ensures |keys| == |nodes|
    ensures forall i | 0 <= i < |nodes| :: keys[i] == nodes[i].proxyID
  {
    seq(|nodes|, i requires 0 <= i < |nodes| => nodes[i].proxyID)
  }

  lemma ProxyCarriers(nodes: seq<Account>, k: int)
    ensures var sharing := Carriers(nodes, ProxyKeys(nodes), k);
            && (forall j | 0 <= j < |sharing| :: sharing[j] in nodes)
            && (forall n | n in nodes :: n in sharing <==> n.proxyID == Some(k))
  {
    var sharing := Carriers(nodes, ProxyKeys(nodes), k);
    forall j | 0 <= j < |sharing|
      ensures sharing[j] in nodes
    {
      CarriersMembers(nodes, ProxyKeys(nodes), k, sharing[j]);
    }
    forall n | n in nodes
      ensures n in sharing <==> n.proxyID == Some(k)
    {
      CarriersMembers(nodes, ProxyKeys(nodes), k, n);
    }
  }

  method AssignProxy(sharing: seq<Account>, e: Proxy)
    modifies sharing`proxy
    ensures forall n | n in sharing :: n.proxy == e
  {
    for j := 0 to |sharing|
      invariant forall k | 0 <= k < j :: sharing[k].proxy == e
    {
      sharing[j].proxy := e;
    }
  }

  method ScatterProxy(
    neighbors: seq<Proxy>, nodeids: map<int, seq<Account>>, ghost ids: seq<int>, ghost nodes: seq<Account>)
    returns (r: LoadResult)
    requires forall k :: k in nodeids <==> k in ids
    requires forall k | k in nodeids :: nodeids[k] == Carriers(nodes, ProxyKeys(nodes), k)
    modifies nodes`proxy
    ensures r == Strays(neighbors, ProxyID, ids)
    ensures r == Done ==> forall n | n in nodes ::
                            n.proxy == OrElse(Match(neighbors, ProxyID, n.proxyID), old(n.proxy))
  {
    for i := 0 to |neighbors|
      invariant Strays(neighbors[..i], ProxyID, ids) == Done
      invariant forall n | n in nodes ::
          n.proxy == OrElse(Match(neighbors[..i], ProxyID, n.proxyID), old(n.proxy))
    {
      var e := neighbors[i];
      StraysStep(neighbors, ProxyID, ids, i);
      if e.id !in nodeids {
        return UnexpectedNode(e.id);
      }
      ProxyCarriers(nodes, e.id);
      AssignProxy(nodeids[e.id], e);
      forall n | n in nodes {
        MatchStep(neighbors, ProxyID, i, n.proxyID);
      }
    }
    assert neighbors[..|neighbors|] == neighbors;
    return Done;
  }

  /** When LoadProxy fails, in terms of the nodes. */
  lemma ProxyOutcome(nodes: seq<Account>, query: seq<int> -> Answer<Proxy>)
    ensures var r, ids := ToOneOutcome(ProxyKeys(nodes), query, ProxyID), KeysToFetch(ProxyKeys(nodes));
            && (r == QueryFailed <==> (exists n :: n in nodes && n.proxyID.Some?) && query(ids).QueryError?)
            && (r == Done <==>
                  || (forall n | n in nodes :: !n.proxyID.Some?)
                  || (query(ids).Rows? && forall e | e in query(ids).rows :: e.id in ids))
            && (r != Done && r != QueryFailed ==>
                  query(ids).Rows? && exists i :: FirstStray(query(ids).rows, ProxyID, ids, i)
                                                  && r == UnexpectedNode(query(ids).rows[i].id))
  {
    ToOneOutcomeMeaning(ProxyKeys(nodes), query, ProxyID);
    var keys := ProxyKeys(nodes);
    forall n | n in nodes && n.proxyID.Some?
      ensures exists key :: key in keys && key.Some?
    {
      var i :| 0 <= i < |nodes| && nodes[i] == n;
      assert keys[i] in keys;
    }
    if key :| key in keys && key.Some? {
      var i :| 0 <= i < |nodes| && keys[i] == key;
      assert nodes[i] in nodes;
    }
  }

  method LoadProxy(nodes: seq<Account>, query: seq<int> -> Answer<Proxy>) returns (r: LoadResult)
    modifies nodes`proxy
    ensures r == ToOneOutcome(ProxyKeys(nodes), query, ProxyID)
    ensures var ids := KeysToFetch(ProxyKeys(nodes));
            && (r == QueryFailed <==> (exists n :: n in nodes && n.proxyID.Some?) && query(ids).QueryError?)
            && (r == Done <==>
                  || (forall n | n in nodes :: !n.proxyID.Some?)
                  || (query(ids).Rows? && forall e | e in query(ids).rows :: e.id in ids))
            && (r != Done && r != QueryFailed ==>
                  query(ids).Rows? && exists i :: FirstStray(query(ids).rows, ProxyID, ids, i)
                                                  && r == UnexpectedNode(query(ids).rows[i].id))
    ensures r == Done ==> forall n | n in nodes ::
                            n.proxy == OrElse(Resolved(ProxyKeys(nodes), query, ProxyID, n.proxyID), old(n.proxy))
  {
    ProxyOutcome(nodes, query);
    var ids, nodeids := IndexByKey(nodes, ProxyKeys(nodes));
    if |ids| == 0 {
      return Done;
    }
    var answer := query(ids);
    if answer.QueryError? {
      return QueryFailed;
    }
    r := ScatterProxy(answer.rows, nodeids, ids, nodes);
  }

  // ---------- LoadParent ----------

  function ParentKeys(nodes: seq<Account>): (keys: seq<Option<int>>)
    ensures |keys| == |nodes|
    ensures forall i | 0 <= i < |nodes| :: keys[i] == nodes[i].parentAccountID
  {
    seq(|nodes|, i requires 0 <= i < |nodes| => nodes[i].parentAccountID)
  }

  lemma ParentCarriers(nodes: seq<Account>, k: int)
    ensures var sharing := Carriers(nodes, ParentKeys(nodes), k);
            && (forall j | 0 <= j < |sharing| :: sharing[j] in nodes)
            && (forall n | n in nodes :: n in sharing <==> n.parentAccountID == Some(k))
  {
    var sharing := Carriers(nodes, ParentKeys(nodes), k);
    forall j | 0 <= j < |sharing|
      ensures sharing[j] in nodes
    {
      CarriersMembers(nodes, ParentKeys(nodes), k, sharing[j]);
    }
    forall n | n in nodes
      ensures n in sharing <==> n.parentAccountID == Some(k)
    {
      CarriersMembers(nodes, ParentKeys(nodes), k, n);
    }
  }

  method AssignParent(sharing: seq<Account>, e: Account)
    modifies sharing`parent
    ensures forall n | n in sharing :: n.parent == e
  {
    for j := 0 to |sharing|
      invariant forall k | 0 <= k < j :: sharing[k].parent == e
    {
      sharing[j].parent := e;
    }
  }

  method ScatterParent(
    neighbors: seq<Account>, nodeids: map<int, seq<Account>>, ghost ids: seq<int>, ghost nodes: seq<Account>)
    returns (r: LoadResult)
    requires forall k :: k in nodeids <==> k in ids
    requires forall k | k in nodeids :: nodeids[k] == Carriers(nodes, ParentKeys(nodes), k)
    modifies nodes`parent
    ensures r == Strays(neighbors, AccountID, ids)
    ensures r == Done ==> forall n | n in nodes ::
                            n.parent == OrElse(Match(neighbors, AccountID, n.parentAccountID), old(n.parent))
  {
    for i := 0 to |neighbors|
      invariant Strays(neighbors[..i], AccountID, ids) == Done
      invariant forall n | n in nodes ::
          n.parent == OrElse(Match(neighbors[..i], AccountID, n.parentAccountID), old(n.parent))
    {
      var e := neighbors[i];
      StraysStep(neighbors, AccountID, ids, i);
      if e.id !in nodeids {
        return UnexpectedNode(e.id);
      }
      ParentCarriers(nodes, e.id);
      AssignParent(nodeids[e.id], e);
      forall n | n in nodes {
        MatchStep(neighbors, AccountID, i, n.parentAccountID);
      }
    }
    assert neighbors[..|neighbors|] == neighbors;
    return Done;
  }

  /** When LoadParent fails, in terms of the nodes. */
  lemma ParentOutcome(nodes: seq<Account>, query: seq<int> -> Answer<Account>)
    ensures var r, ids := ToOneOutcome(ParentKeys(nodes), query, AccountID), KeysToFetch(ParentKeys(nodes));
            && (r == QueryFailed <==> (exists n :: n in nodes && n.parentAccountID.Some?) && query(ids).QueryError?)
            && (r == Done <==>
                  || (forall n | n in nodes :: !n.parentAccountID.Some?)
                  || (query(ids).Rows? && forall e | e in query(ids).rows :: e.id in ids))
            && (r != Done && r != QueryFailed ==>
                  query(ids).Rows? && exists i :: FirstStray(query(ids).rows, AccountID, ids, i)
                                                  && r == UnexpectedNode(query(ids).rows[i].id))
  {
    ToOneOutcomeMeaning(ParentKeys(nodes), query, AccountID);
    var keys := ParentKeys(nodes);
    forall n | n in nodes && n.parentAccountID.Some?
      ensures exists key :: key in keys && key.Some?
    {
      var i :| 0 <= i < |nodes| && nodes[i] == n;
      assert keys[i] in keys;
    }
    if key :| key in keys && key.Some? {
      var i :| 0 <= i < |nodes| && keys[i] == key;
      assert nodes[i] in nodes;
    }
  }

  method LoadParent(nodes: seq<Account>, query: seq<int> -> Answer<Account>) returns (r: LoadResult)
    modifies nodes`parent
    ensures r == ToOneOutcome(ParentKeys(nodes), query, AccountID)
    ensures var ids := KeysToFetch(ParentKeys(nodes));
            && (r == QueryFailed <==> (exists n :: n in nodes && n.parentAccountID.Some?) && query(ids).QueryError?)
            && (r == Done <==>
                  || (forall n | n in nodes :: !n.parentAccountID.Some?)
                  || (query(ids).Rows? && forall e | e in query(ids).rows :: e.id in ids))
            && (r != Done && r != QueryFailed ==>
                  query(ids).Rows? && exists i :: FirstStray(query(ids).rows, AccountID, ids, i)
                                                  && r == UnexpectedNode(query(ids).rows[i].id))
    ensures r == Done ==> forall n | n in nodes ::
                            n.parent ==
                            OrElse(Resolved(ParentKeys(nodes), query, AccountID, n.parentAccountID), old(n.parent))
  {
    ParentOutcome(nodes, query);
    var ids, nodeids := IndexByKey(nodes, ParentKeys(nodes));
    if |ids| == 0 {
      return Done;
    }
    var answer := query(ids);
    if answer.QueryError? {
      return QueryFailed;
    }
    r := ScatterParent(answer.rows, nodeids, ids, nodes);
  }

  // ---------- LoadGroupOfMembership ----------

  function GroupKeys(nodes: seq<AccountGroup>): (keys: seq<Option<int>>)
    ensures |keys| == |nodes|
    ensures forall i | 0 <= i < |nodes| :: keys[i] == Some(nodes[i].groupID)
  {
    seq(|nodes|, i requires 0 <= i < |nodes| => Some(nodes[i].groupID))
  }

  lemma GroupCarriers(nodes: seq<AccountGroup>, k: int)
    ensures var sharing := Carriers(nodes, GroupKeys(nodes), k);
            && (forall j | 0 <= j < |sharing| :: sharing[j] in nodes)
            && (forall n | n in nodes :: n in sharing <==> Some(n.groupID) == Some(k))
  {
    var sharing := Carriers(nodes, GroupKeys(nodes), k);
    forall j | 0 <= j < |sharing|
      ensures sharing[j] in nodes
    {
      CarriersMembers(nodes, GroupKeys(nodes), k, sharing[j]);
    }
    forall n | n in nodes
      ensures n in sharing <==> Some(n.groupID) == Some(k)
    {
      CarriersMembers(nodes, GroupKeys(nodes), k, n);
    }
  }

  method AssignGroup(sharing: seq<AccountGroup>, e: Group)
    modifies sharing`group
    ensures forall n | n in sharing :: n.group == e
  {
    for j := 0 to |sharing|
      invariant forall k | 0 <= k < j :: sharing[k].group == e
    {
      sharing[j].group := e;
    }
  }

  method ScatterGroup(
    neighbors: seq<Group>, nodeids: map<int, seq<AccountGroup>>, ghost ids: seq<int>, ghost nodes: seq<AccountGroup>)
    returns (r: LoadResult)
    requires forall k :: k in nodeids <==> k in ids
    requires forall k | k in nodeids :: nodeids[k] == Carriers(nodes, GroupKeys(nodes), k)
    modifies nodes`group
    ensures r == Strays(neighbors, GroupID, ids)
    ensures r == Done ==> forall n | n in nodes ::
                            n.group == OrElse(Match(neighbors, GroupID, Some(n.groupID)), old(n.group))
  {
    for i := 0 to |neighbors|
      invariant Strays(neighbors[..i], GroupID, ids) == Done
      invariant forall n | n in nodes ::
          n.group == OrElse(Match(neighbors[..i], GroupID, Some(n.groupID)), old(n.group))
    {
      var e := neighbors[i];
      StraysStep(neighbors, GroupID, ids, i);
      if e.id !in nodeids {
        return UnexpectedNode(e.id);
      }
      GroupCarriers(nodes, e.id);
      AssignGroup(nodeids[e.id], e);
      forall n | n in nodes {
        MatchStep(neighbors, GroupID, i, Some(n.groupID));
      }
    }
    assert neighbors[..|neighbors|] == neighbors;
    return Done;
  }

  /** When LoadGroupOfMembership fails, in terms of the nodes. */
  lemma GroupOutcome(nodes: seq<AccountGroup>, query: seq<int> -> Answer<Group>)
    ensures var r, ids := ToOneOutcome(GroupKeys(nodes), query, GroupID), KeysToFetch(GroupKeys(nodes));
            && (r == QueryFailed <==> nodes != [] && query(ids).QueryError?)
            && (r == Done <==>
                  nodes == []
                  || (query(ids).Rows? && forall e | e in query(ids).rows :: e.id in ids))
            && (r != Done && r != QueryFailed ==>
                  query(ids).Rows? && exists i :: FirstStray(query(ids).rows, GroupID, ids, i)
                                                  && r == UnexpectedNode(query(ids).rows[i].id))
  {
    ToOneOutcomeMeaning(GroupKeys(nodes), query, GroupID);
    var keys := GroupKeys(nodes);
    assert nodes != [] ==> keys[0] in keys && keys[0].Some?;
  }

  method LoadGroupOfMembership(nodes: seq<AccountGroup>, query: seq<int> -> Answer<Group>) returns (r: LoadResult)
    modifies nodes`group
    ensures r == ToOneOutcome(GroupKeys(nodes), query, GroupID)
    ensures var ids := KeysToFetch(GroupKeys(nodes));
            && (r == QueryFailed <==> nodes != [] && query(ids).QueryError?)
            && (r == Done <==>
                  nodes == [] || (query(ids).Rows? && forall e | e in query(ids).rows :: e.id in ids))
            && (r != Done && r != QueryFailed ==>
                  query(ids).Rows? && exists i :: FirstStray(query(ids).rows, GroupID, ids, i)
                                                  && r == UnexpectedNode(query(ids).rows[i].id))
    ensures r == Done ==> forall n | n in nodes ::
                            n.group == OrElse(Resolved(GroupKeys(nodes), query, GroupID, Some(n.groupID)), old(n.group))
  {
    GroupOutcome(nodes, query);
    var ids, nodeids := IndexByKey(nodes, GroupKeys(nodes));
    if |ids| == 0 {
      return Done;
    }
    var answer := query(ids);
    if answer.QueryError? {
      return QueryFailed;
    }
    r := ScatterGroup(answer.rows, nodeids, ids, nodes);
  }
}
