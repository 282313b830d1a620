/** The one-to-many loaders: loadChildren (a nullable key), loadUsageLogs and loadAccountGroups (required keys). */
module ToManyLoading {
  import opened Collections
  import opened Entities

  // ---------- LoadChildren ----------

  function Orphan(nodes: seq<Account>): Account -> bool {
    (n: Account) => n.parentAccountID.None? || n.parentAccountID.value !in IDs(nodes)
  }

  function OrphanError(n: Account): LoadResult {
    if n.parentAccountID.None? then NilForeignKey else UnexpectedNode(n.parentAccountID.value)
  }

  function ChildOf(id: int): Account -> bool {
    (n: Account) => n.parentAccountID == Some(id)
  }

  /** The first neighbour that no loaded node owns decides the error. */
  function LoadChildrenOutcome(nodes: seq<Account>, neighbors: seq<Account>): LoadResult {
    var lost := Filter(neighbors, Orphan(nodes));
    if lost == [] then Done else OrphanError(lost[0])
  }

  /** When LoadChildren fails, and with what: the first neighbour that names no loaded node. */
  lemma LoadChildrenOutcomeMeaning(nodes: seq<Account>, neighbors: seq<Account>)
    ensures var r := LoadChildrenOutcome(nodes, neighbors);
            && r != QueryFailed
            && (r == Done <==> forall n | n in neighbors :: Names(nodes, n.parentAccountID))
            && (r != Done ==>
                  exists i :: FirstOrphan(nodes, neighbors, i) && match neighbors[i].parentAccountID
                                                                  case None => r == NilForeignKey
                                                                  case Some(k) => r == UnexpectedNode(k))
  {
    FirstOfFilter(neighbors, Orphan(nodes));
    if Filter(neighbors, Orphan(nodes)) != [] {
      var i :| IsFirst(neighbors, Orphan(nodes), i) && Filter(neighbors, Orphan(nodes))[0] == neighbors[i];
      assert FirstOrphan(nodes, neighbors, i);
    }
  }

  /** A key that names a loaded node. */
  predicate Names(nodes: seq<Account>, key: Option<int>) {
    key.Some? && key.value in IDs(nodes)
  }

  ghost predicate FirstOrphan(nodes: seq<Account>, neighbors: seq<Account>, i: int) {
    && 0 <= i < |neighbors| && !Names(nodes, neighbors[i].parentAccountID)
    && forall j | 0 <= j < i :: Names(nodes, neighbors[j].parentAccountID)
  }

  method LoadChildren(nodes: seq<Account>, query: seq<int> -> Answer<Account>) returns (r: LoadResult)
    modifies nodes`children
    ensures r == match query(IDs(nodes))
                 case QueryError => QueryFailed
                 case Rows(neighbors) => LoadChildrenOutcome(nodes, neighbors)
    ensures r == QueryFailed <==> query(IDs(nodes)).QueryError?
    ensures r == Done <==>
            query(IDs(nodes)).Rows? && forall n | n in query(IDs(nodes)).rows :: Names(nodes, n.parentAccountID)
    ensures r == Done ==> forall p | p in nodes ::
                            p.children ==
                            if Owner(nodes, p.id) == p then Filter(query(IDs(nodes)).rows, ChildOf(p.id)) else []
  {
    var fks, nodeids := [], map[];
    for i := 0 to |nodes|
      invariant fks == IDs(nodes[..i])
      invariant nodeids == ByID(nodes[..i])
      invariant forall k | 0 <= k < i :: nodes[k].children == []
    {
      assert nodes[..i + 1][..i] == nodes[..i];
      fks, nodeids := fks + [nodes[i].id], nodeids[nodes[i].id := nodes[i]];
      nodes[i].children := [];
    }
    assert nodes[..|nodes|] == nodes;
    var answer := query(fks);
    if answer.QueryError? {
      return QueryFailed;
    }
    LoadChildrenOutcomeMeaning(nodes, answer.rows);
    r := ScatterChildren(answer.rows, nodeids, nodes);
  }

  method ScatterChildren(neighbors: seq<Account>, nodeids: map<int, Account>, ghost nodes: seq<Account>)
    returns (r: LoadResult)
    requires nodeids == ByID(nodes)
    requires forall p | p in nodes :: p.children == []
    modifies nodes`children
    ensures r == LoadChildrenOutcome(nodes, neighbors)
    ensures r == Done ==> forall p | p in nodes ::
                            p.children == if Owner(nodes, p.id) == p then Filter(neighbors, ChildOf(p.id)) else []
  {
    for i := 0 to |neighbors|
      invariant Filter(neighbors[..i], Orphan(nodes)) == []
      invariant forall p | p in nodes ::
          p.children == if Owner(nodes, p.id) == p then Filter(neighbors[..i], ChildOf(p.id)) else []
    {
      var n := neighbors[i];
      FirstSelected(neighbors, Orphan(nodes), i);
      if n.parentAccountID.None? {
        return NilForeignKey;
      }
      var fk := n.parentAccountID.value;
      ByIDKeys(nodes, fk);
      if fk !in nodeids {
        return UnexpectedNode(fk);
      }
      var node := nodeids[fk];
      node.children := node.children + [n];
      assert neighbors[..i + 1][..i] == neighbors[..i];
    }
    assert neighbors[..|neighbors|] == neighbors;
    return Done;
  }

  // ---------- LoadUsageLogs ----------

  function Unowned(nodes: seq<Account>): UsageLog -> bool {
    (n: UsageLog) => n.accountID !in IDs(nodes)
  }

  function UnownedError(n: UsageLog): LoadResult {
    UnexpectedNode(n.accountID)
  }

  function LogOf(id: int): UsageLog -> bool {
    (n: UsageLog) => n.accountID == id
  }

  /** The first neighbour that no loaded node owns decides the error. */
  function LoadUsageLogsOutcome(nodes: seq<Account>, neighbors: seq<UsageLog>): LoadResult {
    var lost := Filter(neighbors, Unowned(nodes));
    if lost == [] then Done else UnownedError(lost[0])
  }

  /** When LoadUsageLogs fails, and with what: the first neighbour that names no loaded node. */
  lemma LoadUsageLogsOutcomeMeaning(nodes: seq<Account>, neighbors: seq<UsageLog>)
    ensures var r := LoadUsageLogsOutcome(nodes, neighbors);
            && r != QueryFailed
            && (r == Done <==> forall n | n in neighbors :: n.accountID in IDs(nodes))
            && (r != Done ==>
                  exists i :: FirstUnowned(nodes, neighbors, i) && r == UnexpectedNode(neighbors[i].accountID))
  {
    FirstOfFilter(neighbors, Unowned(nodes));
    if Filter(neighbors, Unowned(nodes)) != [] {
      var i :| IsFirst(neighbors, Unowned(nodes), i) && Filter(neighbors, Unowned(nodes))[0] == neighbors[i];
      assert FirstUnowned(nodes, neighbors, i);
    }
  }

  ghost predicate FirstUnowned(nodes: seq<Account>, neighbors: seq<UsageLog>, i: int) {
    && 0 <= i < |neighbors| && neighbors[i].accountID !in IDs(nodes)
    && forall j | 0 <= j < i :: neighbors[j].accountID in IDs(nodes)
  }

  method LoadUsageLogs(nodes: seq<Account>, query: seq<int> -> Answer<UsageLog>) returns (r: LoadResult)
    modifies nodes`usageLogs
    ensures r == match query(IDs(nodes))
                 case QueryError => QueryFailed
                 case Rows(neighbors) => LoadUsageLogsOutcome(nodes, neighbors)
    ensures r == QueryFailed <==> query(IDs(nodes)).QueryError?
    ensures r == Done <==>
            query(IDs(nodes)).Rows? && forall n | n in query(IDs(nodes)).rows :: n.accountID in IDs(nodes)
    ensures r == Done ==> forall p | p in nodes ::
                            p.usageLogs ==
                            if Owner(nodes, p.id) == p then Filter(query(IDs(nodes)).rows, LogOf(p.id)) else []
  {
    var fks, nodeids := [], map[];
    for i := 0 to |nodes|
      invariant fks == IDs(nodes[..i])
      invariant nodeids == ByID(nodes[..i])
      invariant forall k | 0 <= k < i :: nodes[k].usageLogs == []
    {
      assert nodes[..i + 1][..i] == nodes[..i];
      fks, nodeids := fks + [nodes[i].id], nodeids[nodes[i].id := nodes[i]];
      nodes[i].usageLogs := [];
    }
    assert nodes[..|nodes|] == nodes;
    var answer := query(fks);
    if answer.QueryError? {
      return QueryFailed;
    }
    LoadUsageLogsOutcomeMeaning(nodes, answer.rows);
    r := ScatterUsageLogs(answer.rows, nodeids, nodes);
  }

  method ScatterUsageLogs(neighbors: seq<UsageLog>, nodeids: map<int, Account>, ghost nodes: seq<Account>)
    returns (r: LoadResult)
    requires nodeids == ByID(nodes)
    requires forall p | p in nodes :: p.usageLogs == []
    modifies nodes`usageLogs
    ensures r == LoadUsageLogsOutcome(nodes, neighbors)
    ensures r == Done ==> forall p | p in nodes ::
                            p.usageLogs == if Owner(nodes, p.id) == p then Filter(neighbors, LogOf(p.id)) else []
  {
    for i := 0 to |neighbors|
      invariant Filter(neighbors[..i], Unowned(nodes)) == []
      invariant forall p | p in nodes ::
          p.usageLogs == if Owner(nodes, p.id) == p then Filter(neighbors[..i], LogOf(p.id)) else []
    {
      var n := neighbors[i];
      FirstSelected(neighbors, Unowned(nodes), i);
      var fk := n.accountID;
      ByIDKeys(nodes, fk);
      if fk !in nodeids {
        return UnexpectedNode(fk);
      }
      var node := nodeids[fk];
      node.usageLogs := node.usageLogs + [n];
      assert neighbors[..i + 1][..i] == neighbors[..i];
    }
    assert neighbors[..|neighbors|] == neighbors;
    return Done;
  }

  // ---------- LoadAccountGroups ----------

  function Detached(nodes: seq<Account>): AccountGroup -> bool {
    (n: AccountGroup) => n.accountID !in IDs(nodes)
  }

  function DetachedError(n: AccountGroup): LoadResult {
    UnexpectedNode(n.accountID)
  }

  function MembershipOf(id: int): AccountGroup -> bool {
    (n: AccountGroup) => n.accountID == id
  }

  /** The first neighbour that no loaded node owns decides the error. */
  function LoadAccountGroupsOutcome(nodes: seq<Account>, neighbors: seq<AccountGroup>): LoadResult {
    var lost := Filter(neighbors, Detached(nodes));
    if lost == [] then Done else DetachedError(lost[0])
  }

  /** When LoadAccountGroups fails, and with what: the first neighbour that names no loaded node. */
  lemma LoadAccountGroupsOutcomeMeaning(nodes: seq<Account>, neighbors: seq<AccountGroup>)
    ensures var r := LoadAccountGroupsOutcome(nodes, neighbors);
            && r != QueryFailed
            && (r == Done <==> forall n | n in neighbors :: n.accountID in IDs(nodes))
            && (r != Done ==>
                  exists i :: FirstDetached(nodes, neighbors, i) && r == UnexpectedNode(neighbors[i].accountID))
  {
    FirstOfFilter(neighbors, Detached(nodes));
    if Filter(neighbors, Detached(nodes)) != [] {
      var i :| IsFirst(neighbors, Detached(nodes), i) && Filter(neighbors, Detached(nodes))[0] == neighbors[i];
      assert FirstDetached(nodes, neighbors, i);
    }
  }

  ghost predicate FirstDetached(nodes: seq<Account>, neighbors: seq<AccountGroup>, i: int) {
    && 0 <= i < |neighbors| && neighbors[i].accountID !in IDs(nodes)
    && forall j | 0 <= j < i :: neighbors[j].accountID in IDs(nodes)
  }

  method LoadAccountGroups(nodes: seq<Account>, query: seq<int> -> Answer<AccountGroup>) returns (r: LoadResult)
    modifies nodes`accountGroups
    ensures r == match query(IDs(nodes))
                 case QueryError => QueryFailed
                 case Rows(neighbors) => LoadAccountGroupsOutcome(nodes, neighbors)
    ensures r == QueryFailed <==> query(IDs(nodes)).QueryError?
    ensures r == Done <==>
            query(IDs(nodes)).Rows? && forall n | n in query(IDs(nodes)).rows :: n.accountID in IDs(nodes)
    ensures r == Done ==> forall p | p in nodes ::
                            p.accountGroups ==
                            if Owner(nodes, p.id) == p then Filter(query(IDs(nodes)).rows, MembershipOf(p.id)) else []
  {
    var fks, nodeids := [], map[];
    for i := 0 to |nodes|
      invariant fks == IDs(nodes[..i])
      invariant nodeids == ByID(nodes[..i])
      invariant forall k | 0 <= k < i :: nodes[k].accountGroups == []
    {
      assert nodes[..i + 1][..i] == nodes[..i];
      fks, nodeids := fks + [nodes[i].id], nodeids[nodes[i].id := nodes[i]];
      nodes[i].accountGroups := [];
    }
    assert nodes[..|nodes|] == nodes;
    var answer := query(fks);
    if answer.QueryError? {
      return QueryFailed;
    }
    LoadAccountGroupsOutcomeMeaning(nodes, answer.rows);
    r := ScatterAccountGroups(answer.rows, nodeids, nodes);
  }

  method ScatterAccountGroups(neighbors: seq<AccountGroup>, nodeids: map<int, Account>, ghost nodes: seq<Account>)
    returns (r: LoadResult)
    requires nodeids == ByID(nodes)
    requires forall p | p in nodes :: p.accountGroups == []
    modifies nodes`accountGroups
    ensures r == LoadAccountGroupsOutcome(nodes, neighbors)
    ensures r == Done ==> forall p | p in nodes ::
                            p.accountGroups ==
                                if Owner(nodes, p.id) == p then Filter(neighbors, MembershipOf(p.id)) else []
  {
    for i := 0 to |neighbors|
      invariant Filter(neighbors[..i], Detached(nodes)) == []
      invariant forall p | p in nodes ::
          p.accountGroups == if Owner(nodes, p.id) == p then Filter(neighbors[..i], MembershipOf(p.id)) else []
    {
      var n := neighbors[i];
      FirstSelected(neighbors, Detached(nodes), i);
      var fk := n.accountID;
      ByIDKeys(nodes, fk);
      if fk !in nodeids {
        return UnexpectedNode(fk);
      }
      var node := nodeids[fk];
      node.accountGroups := node.accountGroups + [n];
      assert neighbors[..i + 1][..i] == neighbors[..i];
    }
    assert neighbors[..|neighbors|] == neighbors;
    return Done;
  }

  // ---------- conservation ----------

  function ChildCounts(nodes: seq<Account>, neighbors: seq<Account>): (counts: seq<nat>)
    ensures |counts| == |nodes|
    ensures forall i | 0 <= i < |nodes| :: counts[i] == |Filter(neighbors, ChildOf(nodes[i].id))|
  {
    seq(|nodes|, i requires 0 <= i < |nodes| => |Filter(neighbors, ChildOf(nodes[i].id))|)
  }

  lemma {:induction false} ZeroTally(s: seq<nat>)
    requires forall i | 0 <= i < |s| :: s[i] == 0
    ensures Tally(s) == 0
  {
    if s != [] {
      ZeroTally(s[..|s| - 1]);
    }
  }

  /** No neighbour is dropped and none is given twice. */
  lemma {:induction false} ChildrenConserved(nodes: seq<Account>, neighbors: seq<Account>)
    requires Distinct(IDs(nodes))
    requires LoadChildrenOutcome(nodes, neighbors) == Done
    ensures Tally(ChildCounts(nodes, neighbors)) == |neighbors|
  {
    if neighbors == [] {
      ZeroTally(ChildCounts(nodes, neighbors));
    } else {
      var before, n := neighbors[..|neighbors| - 1], neighbors[|neighbors| - 1];
      assert !Orphan(nodes)(n);
      ChildrenConserved(nodes, before);
      var at :| 0 <= at < |nodes| && IDs(nodes)[at] == n.parentAccountID.value;
      forall i | 0 <= i < |nodes|
        ensures ChildOf(nodes[i].id)(n) <==> i == at
      {
        assert IDs(nodes)[i] == nodes[i].id;
      }
      TallyPoint(ChildCounts(nodes, before), ChildCounts(nodes, neighbors), at);
    }
  }
}
