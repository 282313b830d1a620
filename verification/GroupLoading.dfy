/** loadGroups: the many-to-many loader, and the nested-loop join it speeds up. */
module GroupLoading {
  import opened Collections
  import opened Entities

  /** A row of "groups join account_groups": the leading account_id column and the group's id. */
  datatype JoinRow = JoinRow(accountID: int, groupID: int)

  function GroupColumn(rows: seq<JoinRow>): (ids: seq<int>)
    ensures |ids| == |rows|
    ensures forall i | 0 <= i < |rows| :: ids[i] == rows[i].groupID
  {
    seq(|rows|, i requires 0 <= i < |rows| => rows[i].groupID)
  }

  function GroupIDs(groups: seq<Group>): (ids: seq<int>)
    ensures |ids| == |groups|
    ensures forall i | 0 <= i < |groups| :: ids[i] == groups[i].id
  {
    seq(|groups|, i requires 0 <= i < |groups| => groups[i].id)
  }

  /** The nested-loop join: for each group, in the order of its first row, ask whether it joins the account. */
  function JoinedGroups(rows: seq<JoinRow>, account: int): seq<int> {
    Filter(FirstSeen(GroupColumn(rows)), g => JoinRow(account, g) in rows)
  }

  ghost function FirstRow(rows: seq<JoinRow>): int -> int {
    FirstIn(GroupColumn(rows))
  }

  /** The join lists exactly the account's groups, each once, ordered by the group's first row; nothing else does. */
  lemma JoinedGroupsMeaning(rows: seq<JoinRow>, account: int)
    ensures forall g :: g in JoinedGroups(rows, account) <==> JoinRow(account, g) in rows
    ensures Increasing(JoinedGroups(rows, account), FirstRow(rows))
  {
    var column := GroupColumn(rows);
    forall g
      ensures g in JoinedGroups(rows, account) <==> JoinRow(account, g) in rows
    {
      FilterMembers(FirstSeen(column), g => JoinRow(account, g) in rows, g);
      FirstSeenMembers(column, g);
      if JoinRow(account, g) in rows {
        var i :| 0 <= i < |rows| && rows[i] == JoinRow(account, g);
        assert column[i] == g;
      }
    }
    FirstSeenIncreasing(column);
    FilterKeepsOrder(FirstSeen(column), g => JoinRow(account, g) in rows, FirstRow(rows));
  }

  /** Being the account's groups, ordered by the group's first row, leaves no choice. */
  lemma JoinedGroupsUnique(rows: seq<JoinRow>, account: int, s: seq<int>)
    requires Increasing(s, FirstRow(rows))
    requires forall g :: g in s <==> JoinRow(account, g) in rows
    ensures s == JoinedGroups(rows, account)
  {
    JoinedGroupsMeaning(rows, account);
    forall g
      ensures g in s <==> g in JoinedGroups(rows, account)
    {
      assert g in s <==> JoinRow(account, g) in rows;
    }
    OrderedUnique(s, JoinedGroups(rows, account), FirstRow(rows));
  }

  /** nids: for each group id met, the accounts its rows name. */
  function RowIndex(rows: seq<JoinRow>, nodes: seq<Account>): map<int, set<Account?>> {
    if rows == [] then map[]
    else
      var m := RowIndex(rows[..|rows| - 1], nodes);
      var row := rows[|rows| - 1];
      m[row.groupID := (if row.groupID in m then m[row.groupID] else {}) + {Owner(nodes, row.accountID)}]
  }

  predicate Joins(nids: map<int, set<Account?>>, group: int, account: Account?) {
    group in nids && account in nids[group]
  }

  /** The first loop of loadGroups: ids to ask for, index by id, and the init callback. */
  method IndexAccounts(nodes: seq<Account>) returns (edgeIDs: seq<int>, byID: map<int, Account>)
    modifies nodes`groups
    ensures edgeIDs == IDs(nodes) && byID == ByID(nodes)
    ensures forall a | a in nodes :: a.groups == []
  {
    edgeIDs, byID := [], map[];
    for i := 0 to |nodes|
      invariant edgeIDs == IDs(nodes[..i])
      invariant byID == ByID(nodes[..i])
      invariant forall k | 0 <= k < i :: nodes[k].groups == []
    {
      assert nodes[..i + 1][..i] == nodes[..i];
      edgeIDs := edgeIDs + [nodes[i].id];
      byID := byID[nodes[i].id := nodes[i]];
      nodes[i].groups := [];
    }
    assert nodes[..|nodes|] == nodes;
  }

  function AppendGroup(groups: seq<Group>, g: Group): (r: seq<Group>)
    ensures r == groups + [g]
    ensures GroupIDs(r) == GroupIDs(groups) + [g.id]
  {
    groups + [g]
  }

  lemma CollectStep(rows: seq<JoinRow>, i: nat, nodes: seq<Account>)
    requires i < |rows|
    ensures var g := rows[i].groupID;
            var m := RowIndex(rows[..i], nodes);
            var seen := FirstSeen(GroupColumn(rows[..i]));
            && FirstSeen(GroupColumn(rows[..i + 1])) == (if g in m then seen else seen + [g])
            && RowIndex(rows[..i + 1], nodes)
            == m[g := if g in m then m[g] + {Owner(nodes, rows[i].accountID)} else {Owner(nodes, rows[i].accountID)}]
  {
    var g := rows[i].groupID;
    assert rows[..i + 1][..i] == rows[..i];
    assert GroupColumn(rows[..i + 1]) == GroupColumn(rows[..i]) + [g];
    FirstSeenSnoc(GroupColumn(rows[..i]), g);
    RowIndexMeaning(rows[..i], nodes, g, null);
    assert {} + {Owner(nodes, rows[i].accountID)} == {Owner(nodes, rows[i].accountID)};
  }

  /** Wires a query hook into the group query: builds one node per group and records who asked for it. */
  method CollectRows(rows: seq<JoinRow>, byID: map<int, Account>, ghost nodes: seq<Account>)
    returns (neighbors: seq<Group>, nids: map<int, set<Account?>>)
    requires byID == ByID(nodes)
    ensures GroupIDs(neighbors) == FirstSeen(GroupColumn(rows))
    ensures nids == RowIndex(rows, nodes)
  {
    neighbors, nids := [], map[];
    for i := 0 to |rows|
      invariant GroupIDs(neighbors) == FirstSeen(GroupColumn(rows[..i]))
      invariant nids == RowIndex(rows[..i], nodes)
    {
      var outValue, inValue := rows[i].accountID, rows[i].groupID;
      var node: Account? := if outValue in byID then byID[outValue] else null;
      CollectStep(rows, i, nodes);
      if inValue !in nids {
        var group := new Group(inValue);
        nids, neighbors := nids[inValue := {node}], AppendGroup(neighbors, group);
      } else {
        nids := nids[inValue := nids[inValue] + {node}];
      }
    }
    assert rows[..|rows|] == rows;
  }

  /** Appends every neighbour to the accounts recorded for it, visiting each set in an arbitrary order. */
  method ScatterGroups(neighbors: seq<Group>, nids: map<int, set<Account?>>, ghost nodes: seq<Account>)
    returns (r: LoadResult)
    requires forall g, a | Joins(nids, g, a) :: a == null || a in nodes
    modifies nodes`groups
    ensures r == Done <==> forall i | 0 <= i < |neighbors| :: neighbors[i].id in nids && null !in nids[neighbors[i].id]
    ensures r == Done ==> forall a | a in nodes ::
                            a.groups == old(a.groups) + Filter(neighbors, (g: Group) => Joins(nids, g.id, a))
    ensures r.UnexpectedNode? ==> exists i :: 0 <= i < |neighbors| && neighbors[i].id !in nids
    ensures !r.QueryFailed? && !r.NilForeignKey?
  {
    for i := 0 to |neighbors|
      invariant forall k | 0 <= k < i :: neighbors[k].id in nids && null !in nids[neighbors[k].id]
      invariant forall a | a in nodes ::
          a.groups == old(a.groups) + Filter(neighbors[..i], (g: Group) => Joins(nids, g.id, a))
    {
      var n := neighbors[i];
      if n.id !in nids {
        return UnexpectedNode(n.id);
      }
      var rest := nids[n.id];
      while rest != {}
        invariant rest <= nids[n.id]
        invariant null in nids[n.id] ==> null in rest
        invariant forall a | a in nodes ::
            a.groups == old(a.groups) + Filter(neighbors[..i], (g: Group) => Joins(nids, g.id, a))
              + (if a in nids[n.id] && a !in rest then [n] else [])
        decreases rest
      {
        var kn :| kn in rest;
        assert Joins(nids, n.id, kn);
        if kn == null {
          return NilDereference;
        }
        kn.groups := kn.groups + [n];
        rest := rest - {kn};
      }
      assert neighbors[..i + 1][..i] == neighbors[..i];
    }
    assert neighbors[..|neighbors|] == neighbors;
    return Done;
  }

  lemma {:induction false} RowIndexMeaning(rows: seq<JoinRow>, nodes: seq<Account>, g: int, a: Account?)
    ensures Joins(RowIndex(rows, nodes), g, a) <==>
            exists i :: 0 <= i < |rows| && rows[i].groupID == g && Owner(nodes, rows[i].accountID) == a
    ensures g in RowIndex(rows, nodes) <==> g in GroupColumn(rows)
  {
    if rows != [] {
      var before := rows[..|rows| - 1];
      var row := rows[|rows| - 1];
      RowIndexMeaning(before, nodes, g, a);
      assert GroupColumn(rows) == GroupColumn(before) + [row.groupID];
      if Joins(RowIndex(before, nodes), g, a) {
        var i :| 0 <= i < |before| && before[i].groupID == g && Owner(nodes, before[i].accountID) == a;
        assert rows[i] == before[i];
      }
      forall i | 0 <= i < |rows| && rows[i].groupID == g && Owner(nodes, rows[i].accountID) == a
        ensures Joins(RowIndex(rows, nodes), g, a)
      {
        if i < |before| {
          assert before[i] == rows[i];
        }
      }
    }
  }

  lemma RecordsOnlyNodes(rows: seq<JoinRow>, nodes: seq<Account>)
    ensures forall g, a | Joins(RowIndex(rows, nodes), g, a) :: a == null || a in nodes
  {
    forall g, a | Joins(RowIndex(rows, nodes), g, a)
      ensures a == null || a in nodes
    {
      RowIndexMeaning(rows, nodes, g, a);
      var i :| 0 <= i < |rows| && rows[i].groupID == g && Owner(nodes, rows[i].accountID) == a;
      ByIDKeys(nodes, rows[i].accountID);
    }
  }

  /** For a node its id's owner, being recorded for a group is having a row with it; no other node is recorded. */
  lemma JoinsIsARow(rows: seq<JoinRow>, nodes: seq<Account>, g: int, a: Account)
    requires a in nodes
    ensures Joins(RowIndex(rows, nodes), g, a) <==> Owner(nodes, a.id) == a && JoinRow(a.id, g) in rows
  {
    RowIndexMeaning(rows, nodes, g, a);
    forall i | 0 <= i < |rows|
      ensures Owner(nodes, rows[i].accountID) == a ==> rows[i].accountID == a.id
    {
      ByIDKeys(nodes, rows[i].accountID);
    }
    if Owner(nodes, a.id) == a && JoinRow(a.id, g) in rows {
      var i :| 0 <= i < |rows| && rows[i] == JoinRow(a.id, g);
    }
  }

  /** Filtering the group nodes and reading their ids is filtering the ids. */
  lemma {:induction false} FilterByID(neighbors: seq<Group>, keep: Group -> bool, keepID: int -> bool)
    requires forall g | g in neighbors :: keep(g) == keepID(g.id)
    ensures GroupIDs(Filter(neighbors, keep)) == Filter(GroupIDs(neighbors), keepID)
  {
    if neighbors != [] {
      var before := neighbors[..|neighbors| - 1];
      FilterByID(before, keep, keepID);
      assert GroupIDs(neighbors)[..|neighbors| - 1] == GroupIDs(before);
      assert neighbors[|neighbors| - 1] in neighbors;
    }
  }

  /** The scatter loop dereferences nil exactly when some row names an account that was not loaded. */
  lemma NilRecorded(rows: seq<JoinRow>, nodes: seq<Account>, neighbors: seq<Group>)
    requires GroupIDs(neighbors) == FirstSeen(GroupColumn(rows))
    ensures var nids := RowIndex(rows, nodes);
            && (forall i | 0 <= i < |neighbors| :: neighbors[i].id in nids)
            && ((forall i | 0 <= i < |neighbors| :: null !in nids[neighbors[i].id])
                <==> forall i | 0 <= i < |rows| :: rows[i].accountID in IDs(nodes))
  {
    var nids := RowIndex(rows, nodes);
    forall i | 0 <= i < |neighbors|
      ensures neighbors[i].id in nids
      ensures null in nids[neighbors[i].id] ==> exists k :: 0 <= k < |rows| && rows[k].accountID !in IDs(nodes)
    {
      var g := neighbors[i].id;
      assert GroupIDs(neighbors)[i] == g;
      FirstSeenMembers(GroupColumn(rows), g);
      RowIndexMeaning(rows, nodes, g, null);
      if null in nids[g] {
        assert Joins(nids, g, null);
        var k :| 0 <= k < |rows| && rows[k].groupID == g && Owner(nodes, rows[k].accountID) == null;
        ByIDKeys(nodes, rows[k].accountID);
      }
    }
    forall k | 0 <= k < |rows| && rows[k].accountID !in IDs(nodes)
      ensures exists i :: 0 <= i < |neighbors| && null in nids[neighbors[i].id]
    {
      var g := rows[k].groupID;
      assert GroupColumn(rows)[k] == g;
      FirstSeenMembers(GroupColumn(rows), g);
      var i :| 0 <= i < |neighbors| && GroupIDs(neighbors)[i] == g;
      ByIDKeys(nodes, rows[k].accountID);
      RowIndexMeaning(rows, nodes, g, null);
      assert Joins(nids, g, null);
      assert neighbors[i].id == g;
    }
  }

  /** The groups appended to a node are the ones the nested-loop join gives for its id. */
  lemma ScatteredIsJoined(rows: seq<JoinRow>, nodes: seq<Account>, neighbors: seq<Group>, a: Account)
    requires GroupIDs(neighbors) == FirstSeen(GroupColumn(rows))
    requires a in nodes
    ensures GroupIDs(Filter(neighbors, (g: Group) => Joins(RowIndex(rows, nodes), g.id, a)))
         == if Owner(nodes, a.id) == a then JoinedGroups(rows, a.id) else []
  {
    var nids := RowIndex(rows, nodes);
    var keep := (g: Group) => Joins(nids, g.id, a);
    forall g | g in neighbors
      ensures keep(g) <==> Owner(nodes, a.id) == a && JoinRow(a.id, g.id) in rows
    {
      JoinsIsARow(rows, nodes, g.id, a);
    }
    if Owner(nodes, a.id) == a {
      FilterByID(neighbors, keep, g => JoinRow(a.id, g) in rows);
    } else {
      FilterNone(neighbors, keep);
    }
  }

  /** Every node holds the groups of the nested-loop join, except a node hidden by a later one with its id. */
  ghost predicate HasJoinedGroups(nodes: seq<Account>, rows: seq<JoinRow>)
    reads nodes`groups
  {
    forall a | a in nodes :: GroupIDs(a.groups) == if Owner(nodes, a.id) == a then JoinedGroups(rows, a.id) else []
  }

  /** One group is one object, however many accounts hold it. */
  ghost predicate SharesGroups(nodes: seq<Account>)
    reads nodes`groups
  {
    forall a, b, i, j | a in nodes && b in nodes && 0 <= i < |a.groups| && 0 <= j < |b.groups| ::
      a.groups[i].id == b.groups[j].id ==> a.groups[i] == b.groups[j]
  }

  lemma LoadedGroups(rows: seq<JoinRow>, nodes: seq<Account>, neighbors: seq<Group>)
    requires GroupIDs(neighbors) == FirstSeen(GroupColumn(rows))
    requires forall a | a in nodes ::
               a.groups == Filter(neighbors, (g: Group) => Joins(RowIndex(rows, nodes), g.id, a))
    ensures HasJoinedGroups(nodes, rows) && SharesGroups(nodes)
  {
    forall a | a in nodes
      ensures GroupIDs(a.groups) == if Owner(nodes, a.id) == a then JoinedGroups(rows, a.id) else []
    {
      ScatteredIsJoined(rows, nodes, neighbors, a);
    }
    forall a, b, i, j | a in nodes && b in nodes && 0 <= i < |a.groups| && 0 <= j < |b.groups|
      ensures a.groups[i].id == b.groups[j].id ==> a.groups[i] == b.groups[j]
    {
      FilterMembers(neighbors, (g: Group) => Joins(RowIndex(rows, nodes), g.id, a), a.groups[i]);
      FilterMembers(neighbors, (g: Group) => Joins(RowIndex(rows, nodes), g.id, b), b.groups[j]);
      OneObjectPerID(rows, neighbors, a.groups[i], b.groups[j]);
    }
  }

  lemma OneObjectPerID(rows: seq<JoinRow>, neighbors: seq<Group>, g: Group, h: Group)
    requires GroupIDs(neighbors) == FirstSeen(GroupColumn(rows))
    requires g in neighbors && h in neighbors
    ensures g.id == h.id ==> g == h
  {
    FirstSeenDistinct(GroupColumn(rows));
    var i :| 0 <= i < |neighbors| && neighbors[i] == g;
    var j :| 0 <= j < |neighbors| && neighbors[j] == h;
    assert GroupIDs(neighbors)[i] == g.id && GroupIDs(neighbors)[j] == h.id;
  }

  /** Loads the groups edge of `nodes`; `query` gives the join rows for the account ids asked about. */
  method LoadGroups(nodes: seq<Account>, query: seq<int> -> Answer<JoinRow>) returns (r: LoadResult)
    modifies nodes`groups
    ensures query(IDs(nodes)).QueryError? ==> r == QueryFailed
    ensures query(IDs(nodes)).Rows? ==>
              var rows := query(IDs(nodes)).rows;
              && (r == Done <==> forall i | 0 <= i < |rows| :: rows[i].accountID in IDs(nodes))
              && (r != Done ==> r == NilDereference)
              && (r == Done ==>
                    HasJoinedGroups(nodes, rows) && SharesGroups(nodes))
  {
    var edgeIDs, byID := IndexAccounts(nodes);
    var answer := query(edgeIDs);
    if answer.QueryError? {
      return QueryFailed;
    }
    var rows := answer.rows;
    var neighbors, nids := CollectRows(rows, byID, nodes);
    RecordsOnlyNodes(rows, nodes);
    r := ScatterGroups(neighbors, nids, nodes);
    NilRecorded(rows, nodes, neighbors);
    if r == Done {
      LoadedGroups(rows, nodes, neighbors);
    }
  }
}
