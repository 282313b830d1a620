/** Selecting fewer columns does not change the edges: querySpec and AppendFieldOnce keep every key a loader needs. */
module Projection {
  import opened Collections
  import opened AccountSchema
  import opened AccountCodec
  import opened AccountRoundTrip
  import Entities
  import GroupLoading
  import ToOneIndex
  import ToOneLoading
  import ToManyLoading
  import opened AccountLoading

  /** The eager-loaded edges of a query whose foreign key is in its own table. */
  datatype WithKeys = WithKeys(proxy: bool, parent: bool)

  /** sqlgraph's AddColumnOnce and ent's AppendFieldOnce. */
  function AddOnce<T(==)>(columns: seq<T>, f: T): seq<T> {
    if f in columns then columns else columns + [f]
  }

  /** The test of querySpec's loop: the id is listed already. */
  function Other<T(==)>(id: T): T -> bool {
    (f: T) => f != id
  }

  /** The id first, then the named fields, then the keys that are not there yet. */
  function NamedColumns<T(==)>(id: T, fields: seq<T>, withKey1: bool, key1: T, withKey2: bool, key2: T): seq<T> {
    var named := [id] + Filter(fields, Other(id));
    var once := if withKey1 then AddOnce(named, key1) else named;
    if withKey2 then AddOnce(once, key2) else once
  }

  /** The columns a query reads for a field selection. */
  function SelectedColumns(fields: seq<Field>, edges: WithKeys): seq<Field> {
    if fields == [] then Columns()
    else NamedColumns(ID, fields, edges.proxy, ProxyID, edges.parent, ParentAccountID)
  }

  /** The column part of querySpec. */
  method QuerySpecColumns(fields: seq<Field>, edges: WithKeys) returns (columns: seq<Field>)
    ensures columns == SelectedColumns(fields, edges)
  {
    hide Columns;
    columns := Columns();
    if |fields| > 0 {
      columns := [ID];
      for i := 0 to |fields|
        invariant columns == [ID] + Filter(fields[..i], Other(ID))
      {
        assert fields[..i + 1][..i] == fields[..i];
        if fields[i] != ID {
          columns := columns + [fields[i]];
        }
      }
      assert fields[..|fields|] == fields;
      if edges.proxy {
        columns := AddOnce(columns, ProxyID);
      }
      if edges.parent {
        columns := AddOnce(columns, ParentAccountID);
      }
    }
  }

  lemma NamedColumnsKeep<T>(id: T, fields: seq<T>, withKey1: bool, key1: T, withKey2: bool, key2: T)
    ensures var columns := NamedColumns(id, fields, withKey1, key1, withKey2, key2);
            && columns[0] == id
            && (withKey1 ==> key1 in columns)
            && (withKey2 ==> key2 in columns)
            && (forall f | f in fields :: f in columns)
  {
    forall f | f in fields
      ensures f in NamedColumns(id, fields, withKey1, key1, withKey2, key2)
    {
      FilterMembers(fields, Other(id), f);
    }
  }

  /** The keys a selection keeps; the id is the first column, where the group loader's row hook expects it. */
  lemma SelectionKeepsKeys(fields: seq<Field>, edges: WithKeys)
    ensures var columns := SelectedColumns(fields, edges);
            && columns != [] && columns[0] == ID
            && (edges.proxy ==> ProxyID in columns)
            && (edges.parent ==> ParentAccountID in columns)
            && (forall f | f in fields :: f in columns)
  {
    assert Columns()[0] == ID;
    hide Columns, NamedColumns;
    AllColumns(ProxyID);
    AllColumns(ParentAccountID);
    NamedColumnsKeep(ID, fields, edges.proxy, ProxyID, edges.parent, ParentAccountID);
  }

  lemma NamedShape<T>(id: T, fields: seq<T>, withKey1: bool, key1: T, withKey2: bool, key2: T)
    requires key1 != key2 && id != key1 && id != key2
    ensures NamedColumns(id, fields, withKey1, key1, withKey2, key2)
         == [id] + Filter(fields, Other(id))
            + (if withKey1 && key1 !in fields then [key1] else [])
            + if withKey2 && key2 !in fields then [key2] else []
  {
    var others := Filter(fields, Other(id));
    FilterMembers(fields, Other(id), key1);
    FilterMembers(fields, Other(id), key2);
    hide Filter;
    assert key1 in [id] + others <==> key1 in fields;
    assert key2 in [id] + others <==> key2 in fields;
    assert [id] + others + [] == [id] + others;
    assert key2 in [id] + others + [key1] <==> key2 in [id] + others;
  }

  lemma IDOnce<T>(id: T, others: seq<T>, keys1: seq<T>, keys2: seq<T>)
    requires id !in others && id !in keys1 && id !in keys2
    ensures id !in ([id] + others + keys1 + keys2)[1..]
  {
    assert ([id] + others + keys1 + keys2)[1..] == others + keys1 + keys2;
  }

  /** The columns of a selection: the id once, the other selected columns as they come, and the keys not among them. */
  lemma SelectionShape(fields: seq<Field>, edges: WithKeys)
    requires fields != []
    ensures SelectedColumns(fields, edges)
         == [ID] + Filter(fields, Other(ID))
            + (if edges.proxy && ProxyID !in fields then [ProxyID] else [])
            + if edges.parent && ParentAccountID !in fields then [ParentAccountID] else []
    ensures ID !in SelectedColumns(fields, edges)[1..]
  {
    NamedShape(ID, fields, edges.proxy, ProxyID, edges.parent, ParentAccountID);
    FilterMembers(fields, Other(ID), ID);
    hide NamedColumns, Filter;
    IDOnce(ID, Filter(fields, Other(ID)), if edges.proxy && ProxyID !in fields then [ProxyID] else [],
           if edges.parent && ParentAccountID !in fields then [ParentAccountID] else []);
  }

  /** loadChildren asks its query for the foreign key whenever that query selects fields at all. */
  lemma ChildSelectionKeepsKey(fields: seq<Field>, edges: WithKeys)
    ensures ParentAccountID in
              SelectedColumns(if fields == [] then fields else AddOnce(fields, ParentAccountID), edges)
  {
    hide Columns, NamedColumns;
    AllColumns(ParentAccountID);
    if fields != [] {
      SelectionKeepsKeys(AddOnce(fields, ParentAccountID), edges);
      assert ParentAccountID in AddOnce(fields, ParentAccountID);
    }
  }

  function PointerOf(v: GoValue): Option<int> {
    match v case Ptr(VInt64(k)) => Some(k) case _ => None
  }

  function At(s: Struct, f: Field): GoValue {
    if f in s then s[f] else Nil
  }

  /** The keys of a struct that the loaders look at. */
  function KeysOf(s: Struct): AccountRow {
    AccountRow(match At(s, ID) case Plain(VInt64(k)) => k case _ => 0,
               PointerOf(At(s, ProxyID)), PointerOf(At(s, ParentAccountID)))
  }

  function AsColumns(fields: seq<Field>): (columns: seq<Column>)
    ensures |columns| == |fields|
    ensures forall i | 0 <= i < |fields| :: columns[i] == Known(fields[i])
  {
    seq(|fields|, i requires 0 <= i < |fields| => Known(fields[i]))
  }

  /** Two rows have the same keys as far as the requested edges care. */
  predicate SameKeys(r: AccountRow, s: AccountRow, edges: WithKeys) {
    && r.id == s.id
    && (edges.proxy ==> r.proxyID == s.proxyID)
    && (edges.parent ==> r.parentAccountID == s.parentAccountID)
  }

  /** Reading a row through a selection gives the node's keys. */
  lemma ProjectedKeys(
    codec: JsonCodec, row: map<Field, Option<Stored>>, node: Struct,
    fields: seq<Field>, edges: WithKeys, cells: seq<Cell>)
    requires forall f: Field :: f in node && ReadsBack(codec, row, node, f)
    requires CellsOf(AsColumns(SelectedColumns(fields, edges)), cells, row)
    ensures var columns := SelectedColumns(fields, edges);
            var r := Assign(codec, Entity(ZeroStruct(), map[]), AsColumns(columns), cells);
            && r.error.None?
            && r.entity.fields.Keys == ZeroStruct().Keys
            && SameKeys(KeysOf(r.entity.fields), KeysOf(node), edges)
            && forall f | f in fields :: r.entity.fields[f] == node[f]
  {
    hide Columns, SelectedColumns, Scan, ScanTarget, Effect1, Zero;
    var columns := SelectedColumns(fields, edges);
    AssignSelection(codec, row, node, AsColumns(columns), cells);
    SelectionKeepsKeys(fields, edges);
    forall f | f in columns
      ensures Known(f) in AsColumns(columns)
    {
      var i :| 0 <= i < |columns| && columns[i] == f;
      assert AsColumns(columns)[i] == Known(f);
    }
  }

  // ---------- same keys, same edges ----------

  ghost predicate SameKeysThroughout(a: seq<Entities.Account>, b: seq<Entities.Account>, plan: Plan) {
    && Entities.IDs(a) == Entities.IDs(b)
    && (plan.proxy.Some? ==> ToOneLoading.ProxyKeys(a) == ToOneLoading.ProxyKeys(b))
    && (plan.parent.Some? ==> ToOneLoading.ParentKeys(a) == ToOneLoading.ParentKeys(b))
  }

  predicate LastWithID(ids: seq<int>, i: nat)
    requires i < |ids|
  {
    forall j | i < j < |ids| :: ids[j] != ids[i]
  }

  /** The node that owns an id is the one at its last position. */
  lemma {:induction false} OwnerIsLast(nodes: seq<Entities.Account>, i: nat)
    requires Distinct(nodes) && i < |nodes|
    ensures Entities.Owner(nodes, nodes[i].id) == nodes[i] <==> LastWithID(Entities.IDs(nodes), i)
  {
    var n := |nodes| - 1;
    var before := nodes[..n];
    var ids := Entities.IDs(nodes);
    assert ids == Entities.IDs(before) + [nodes[n].id];
    if i < n {
      OwnerIsLast(before, i);
      assert nodes[i] != nodes[n];
      if nodes[i].id != nodes[n].id {
        assert Entities.Owner(nodes, nodes[i].id) == Entities.Owner(before, nodes[i].id);
        assert LastWithID(ids, i) <==> LastWithID(Entities.IDs(before), i);
      } else {
        assert ids[n] == ids[i];
      }
    }
  }

  lemma SameOwner(a: seq<Entities.Account>, b: seq<Entities.Account>, i: nat)
    requires Entities.IDs(a) == Entities.IDs(b) && Distinct(a) && Distinct(b) && i < |a|
    ensures |a| == |b| && a[i].id == b[i].id
    ensures Entities.Owner(a, a[i].id) == a[i] <==> Entities.Owner(b, b[i].id) == b[i]
  {
    assert |a| == |Entities.IDs(a)| == |Entities.IDs(b)|;
    assert Entities.IDs(a)[i] == a[i].id && Entities.IDs(b)[i] == b[i].id;
    OwnerIsLast(a, i);
    OwnerIsLast(b, i);
  }

  lemma SameSingleEdges(a: seq<Entities.Account>, b: seq<Entities.Account>, plan: Plan, i: nat)
    requires SameKeysThroughout(a, b, plan) && i < |a| == |b|
    requires ProxyAnswers(a, plan) && ProxyAnswers(b, plan)
    requires ParentAnswers(a, plan) && ParentAnswers(b, plan)
    ensures a[i].ProxyOrErr() == b[i].ProxyOrErr()
    ensures a[i].ParentOrErr() == b[i].ParentOrErr()
  {
    assert a[i] in a && b[i] in b;
    assert plan.proxy.Some? ==> ToOneLoading.ProxyKeys(a)[i] == ToOneLoading.ProxyKeys(b)[i];
    assert plan.parent.Some? ==> ToOneLoading.ParentKeys(a)[i] == ToOneLoading.ParentKeys(b)[i];
  }

  /** A node owns the same neighbours in both lists. */
  lemma SameOwned<T>(
    a: seq<Entities.Account>, b: seq<Entities.Account>, i: nat, answer: Entities.Answer<T>, mine: T -> bool)
    requires i < |a| == |b| && a[i].id == b[i].id
    requires Entities.Owner(a, a[i].id) == a[i] <==> Entities.Owner(b, b[i].id) == b[i]
    ensures Owned(a, a[i], answer, mine) == Owned(b, b[i], answer, mine)
  {
    hide Filter, Entities.Owner;
  }

  lemma SameListEdges(a: seq<Entities.Account>, b: seq<Entities.Account>, plan: Plan, i: nat)
    requires Entities.IDs(a) == Entities.IDs(b) && i < |a| == |b| && a[i].id == b[i].id
    requires Entities.Owner(a, a[i].id) == a[i] <==> Entities.Owner(b, b[i].id) == b[i]
    requires ChildrenAnswer(a, plan) && ChildrenAnswer(b, plan)
    requires UsageLogsAnswer(a, plan) && UsageLogsAnswer(b, plan)
    requires AccountGroupsAnswer(a, plan) && AccountGroupsAnswer(b, plan)
    ensures a[i].ChildrenOrErr() == b[i].ChildrenOrErr()
    ensures a[i].UsageLogsOrErr() == b[i].UsageLogsOrErr()
    ensures a[i].AccountGroupsOrErr() == b[i].AccountGroupsOrErr()
  {
    hide Owned, Entities.Owner, Entities.IDs, ToManyLoading.ChildOf, ToManyLoading.LogOf, ToManyLoading.MembershipOf;
    assert a[i] in a && b[i] in b;
    var ids := Entities.IDs(a);
    if plan.children.Some? {
      SameOwned(a, b, i, plan.children.value(ids), ToManyLoading.ChildOf(a[i].id));
    }
    if plan.usageLogs.Some? {
      SameOwned(a, b, i, plan.usageLogs.value(ids), ToManyLoading.LogOf(a[i].id));
    }
    if plan.accountGroups.Some? {
      SameOwned(a, b, i, plan.accountGroups.value(ids), ToManyLoading.MembershipOf(a[i].id));
    }
  }

  /** The two accounts answer the same from every edge accessor; groups are compared by id. */
  ghost predicate SameAnswers(a: Entities.Account, b: Entities.Account)
    reads a, b
  {
    && a.ProxyOrErr() == b.ProxyOrErr() && a.ParentOrErr() == b.ParentOrErr()
    && a.ChildrenOrErr() == b.ChildrenOrErr() && a.UsageLogsOrErr() == b.UsageLogsOrErr()
    && a.AccountGroupsOrErr() == b.AccountGroupsOrErr()
    && a.GroupsOrErr().NotLoaded? == b.GroupsOrErr().NotLoaded?
    && (a.GroupsOrErr().Loaded? ==> GroupLoading.GroupIDs(a.groups) == GroupLoading.GroupIDs(b.groups))
  }

  /** Nodes with the same keys answer the same once their edges are loaded. */
  lemma SameKeysSameEdges(a: seq<Entities.Account>, b: seq<Entities.Account>, plan: Plan, i: nat)
    requires SameKeysThroughout(a, b, plan) && Distinct(a) && Distinct(b) && i < |a|
    requires AccessorsAnswer(a, plan) && AccessorsAnswer(b, plan)
    requires Outcome(a, plan) == Entities.Done
    ensures |a| == |b| && SameAnswers(a[i], b[i])
  {
    hide GroupsAnswer, ProxyAnswers, ParentAnswers, ChildrenAnswer, UsageLogsAnswer, AccountGroupsAnswer;
    hide SameKeysThroughout, Outcome;
    SameIDs(a, b, plan);
    SameOwner(a, b, i);
    SameSingleEdges(a, b, plan, i);
    SameListEdges(a, b, plan, i);
    SameGroupEdge(a, b, plan, i);
  }

  lemma SameIDs(a: seq<Entities.Account>, b: seq<Entities.Account>, plan: Plan)
    requires SameKeysThroughout(a, b, plan)
    ensures Entities.IDs(a) == Entities.IDs(b) && |a| == |b|
  {
    assert |a| == |Entities.IDs(a)| == |Entities.IDs(b)|;
  }

  lemma SameGroupEdge(a: seq<Entities.Account>, b: seq<Entities.Account>, plan: Plan, i: nat)
    requires Entities.IDs(a) == Entities.IDs(b) && i < |a| == |b| && a[i].id == b[i].id
    requires Entities.Owner(a, a[i].id) == a[i] <==> Entities.Owner(b, b[i].id) == b[i]
    requires GroupsAnswer(a, plan) && GroupsAnswer(b, plan)
    requires Outcome(a, plan) == Entities.Done
    ensures a[i].GroupsOrErr().NotLoaded? == b[i].GroupsOrErr().NotLoaded?
    ensures a[i].GroupsOrErr().Loaded? ==> GroupLoading.GroupIDs(a[i].groups) == GroupLoading.GroupIDs(b[i].groups)
  {
    hide ProxyStep, ParentStep, ChildrenStep, UsageLogsStep, AccountGroupsStep, Entities.Owner;
    hide GroupLoading.HasJoinedGroups, GroupLoading.SharesGroups;
    assert a[i] in a && b[i] in b;
    if plan.groups.Some? {
      SameGroups(a, b, plan.groups.value(Entities.IDs(a)).rows, i);
    }
  }

  lemma SameGroups(a: seq<Entities.Account>, b: seq<Entities.Account>, rows: seq<GroupLoading.JoinRow>, i: nat)
    requires i < |a| == |b| && a[i].id == b[i].id
    requires Entities.Owner(a, a[i].id) == a[i] <==> Entities.Owner(b, b[i].id) == b[i]
    requires GroupLoading.HasJoinedGroups(a, rows) && GroupLoading.HasJoinedGroups(b, rows)
    ensures GroupLoading.GroupIDs(a[i].groups) == GroupLoading.GroupIDs(b[i].groups)
  {
    assert a[i] in a && b[i] in b;
  }

  lemma SameOutcome(a: seq<Entities.Account>, b: seq<Entities.Account>, plan: Plan)
    requires SameKeysThroughout(a, b, plan)
    ensures Outcome(a, plan) == Outcome(b, plan)
  {
  }

  // ---------- projection transparency ----------

  /** The foreign keys a plan needs. */
  function NeededKeys(plan: Plan): WithKeys {
    WithKeys(plan.proxy.Some?, plan.parent.Some?)
  }

  lemma SameRowsSameKeys(
    a: seq<Entities.Account>, b: seq<Entities.Account>, r: seq<AccountRow>, s: seq<AccountRow>, plan: Plan)
    requires Reads(a, r) && Reads(b, s) && |r| == |s|
    requires forall i | 0 <= i < |r| :: SameKeys(r[i], s[i], NeededKeys(plan))
    ensures SameKeysThroughout(a, b, plan)
  {
    assert forall i | 0 <= i < |r| :: SameKeys(r[i], s[i], NeededKeys(plan)) && a[i].id == b[i].id;
  }

  /** Two reads of the same keys, eager-loaded by the same plan: the same result, error or not, and the same answers. */
  method LoadBoth(r: seq<AccountRow>, s: seq<AccountRow>, plan: Plan)
    returns (a: seq<Entities.Account>, b: seq<Entities.Account>, ra: Entities.LoadResult, rb: Entities.LoadResult)
    requires |r| == |s| && forall i | 0 <= i < |r| :: SameKeys(r[i], s[i], NeededKeys(plan))
    ensures ra == rb
    ensures r == [] ==> ra == Entities.Done
    ensures r != [] ==> exists nodes: seq<Entities.Account> :: Reads(nodes, r) && ra == Outcome(nodes, plan)
    ensures ra == Entities.Done ==> Reads(a, r) && AccessorsAnswer(a, plan) && Reads(b, s) && AccessorsAnswer(b, plan)
    ensures ra != Entities.Done ==> a == b == []
    ensures |a| == |b| && forall i | 0 <= i < |a| :: SameAnswers(a[i], b[i])
  {
    hide Outcome, AccessorsAnswer, SameKeysThroughout, SameAnswers, Distinct, Reads;
    ra, a := SqlAll(Entities.Rows(r), plan);
    rb, b := SqlAll(Entities.Rows(s), plan);
    if r != [] {
      ghost var all, all' := a, b;
      if ra != Entities.Done {
        all :| Reads(all, r) && all != [] && ra == Outcome(all, plan);
      }
      if rb != Entities.Done {
        all' :| Reads(all', s) && all' != [] && rb == Outcome(all', plan);
      }
      assert Reads(all, r) && ra == Outcome(all, plan);
      ReadsAll(all, r);
      ReadsAll(all', s);
      SameRowsSameKeys(all, all', r, s, plan);
      SameOutcome(all, all', plan);
      if ra == Entities.Done {
        forall i | 0 <= i < |a|
          ensures SameAnswers(a[i], b[i])
        {
          SameKeysSameEdges(a, b, plan, i);
        }
      }
    }
  }

  lemma ReadsAll(nodes: seq<Entities.Account>, rows: seq<AccountRow>)
    requires Reads(nodes, rows)
    ensures |nodes| == |rows|
  {
  }

  // ---------- rows read through a selection ----------

  type StoredRow = map<Field, Option<Stored>>

  /** Every column of the row scans and assigns, and the struct it stands for is `node`. */
  ghost predicate Readable(codec: JsonCodec, row: StoredRow, node: Struct) {
    forall f: Field :: f in node && ReadsBack(codec, row, node, f)
  }

  /** The rows of accounts that were created are readable. */
  lemma CreatedRowsAreReadable(codec: JsonCodec, m: Mutation, id: int)
    requires codec.Lossless() && WellTyped(m)
    ensures Readable(codec, Insert(codec, CreateSpecOf(m).1, id), SavedNode(m, id))
  {
    SavedReadsBack(codec, m, id);
  }

  /** What the driver scans for the selected columns. */
  method ScanRow(codec: JsonCodec, columns: seq<Field>, row: StoredRow, ghost node: Struct) returns (cells: seq<Cell>)
    requires Readable(codec, row, node)
    ensures CellsOf(AsColumns(columns), cells, row)
  {
    hide Scan, ScanTarget, Effect1, Zero;
    cells := [];
    for i := 0 to |columns|
      invariant CellsOf(AsColumns(columns[..i]), cells, row)
    {
      var f := columns[i];
      assert ReadsBack(codec, row, node, f);
      cells := cells + [Scan(ScanTarget(f), row[f]).value];
      assert AsColumns(columns[..i + 1]) == AsColumns(columns[..i]) + [Known(f)];
    }
    assert columns[..|columns|] == columns;
  }

  /** The keys of every row, read through a selection into a fresh account. */
  method ReadRows(codec: JsonCodec, rows: seq<StoredRow>, ghost nodes: seq<Struct>, fields: seq<Field>, plan: Plan)
    returns (read: seq<AccountRow>)
    requires |rows| == |nodes| && forall k | 0 <= k < |rows| :: Readable(codec, rows[k], nodes[k])
    ensures |read| == |rows|
    ensures forall k | 0 <= k < |rows| :: SameKeys(read[k], KeysOf(nodes[k]), NeededKeys(plan))
  {
    hide Readable, SelectedColumns, SameKeys, Assign, KeysOf, CellsOf;
    var columns := QuerySpecColumns(fields, NeededKeys(plan));
    read := [];
    for k := 0 to |rows|
      invariant |read| == k
      invariant forall j | 0 <= j < k :: SameKeys(read[j], KeysOf(nodes[j]), NeededKeys(plan))
    {
      var row := ReadRow(codec, rows[k], nodes[k], columns, fields, plan);
      read := read + [row];
    }
  }

  method ReadRow(
    codec: JsonCodec, row: StoredRow, ghost node: Struct, columns: seq<Field>, fields: seq<Field>, plan: Plan)
    returns (read: AccountRow)
    requires Readable(codec, row, node) && columns == SelectedColumns(fields, NeededKeys(plan))
    ensures SameKeys(read, KeysOf(node), NeededKeys(plan))
  {
    hide SelectedColumns, Assign, ReadsBack, CellsOf, KeysOf, SameKeys, Scan, Effect1, Zero;
    var cells := ScanRow(codec, columns, row, node);
    var account := new AccountCodec.Account();
    var error := account.AssignValues(codec, AsColumns(columns), cells);
    ProjectedKeys(codec, row, node, fields, NeededKeys(plan), cells);
    read := KeysOf(account.fields);
  }

  /** The accounts have the keys of these structs, as far as the plan needs them. */
  ghost predicate Stand(accounts: seq<Entities.Account>, nodes: seq<Struct>, plan: Plan) {
    && |accounts| == |nodes|
    && forall k | 0 <= k < |nodes| ::
         SameKeys(AccountRow(accounts[k].id, accounts[k].proxyID, accounts[k].parentAccountID), KeysOf(nodes[k]),
                  NeededKeys(plan))
  }

  lemma ReadAndStand(accounts: seq<Entities.Account>, read: seq<AccountRow>, nodes: seq<Struct>, plan: Plan)
    requires Reads(accounts, read) && |read| == |nodes|
    requires forall k | 0 <= k < |nodes| :: SameKeys(read[k], KeysOf(nodes[k]), NeededKeys(plan))
    ensures Stand(accounts, nodes, plan)
  {
    hide KeysOf, SameKeys;
  }

  /** Selecting fewer columns changes neither the result of a query nor what any edge accessor answers: both are those
    * of the accounts the rows stand for.
    */
  method QueryBothWays(codec: JsonCodec, rows: seq<StoredRow>, ghost nodes: seq<Struct>, fields: seq<Field>, plan: Plan)
    returns (some: seq<Entities.Account>, all: seq<Entities.Account>,
             rSome: Entities.LoadResult, rAll: Entities.LoadResult)
    requires |rows| == |nodes| && forall k | 0 <= k < |rows| :: Readable(codec, rows[k], nodes[k])
    ensures rSome == rAll
    ensures rows == [] ==> rSome == Entities.Done
    ensures rows != [] ==>
              exists read: seq<Entities.Account> :: Stand(read, nodes, plan) && rSome == Outcome(read, plan)
    ensures rSome == Entities.Done ==> Stand(some, nodes, plan) && AccessorsAnswer(some, plan)
    ensures rSome == Entities.Done ==> Stand(all, nodes, plan) && AccessorsAnswer(all, plan)
    ensures rSome != Entities.Done ==> some == all == []
    ensures |some| == |all| && forall i | 0 <= i < |some| :: SameAnswers(some[i], all[i])
  {
    hide Readable, KeysOf, SameAnswers, AccessorsAnswer, Outcome, Stand, Reads;
    var selected := ReadRows(codec, rows, nodes, fields, plan);
    var full := ReadRows(codec, rows, nodes, [], plan);
    some, all, rSome, rAll := LoadBoth(selected, full, plan);
    if rows != [] {
      ghost var read :| Reads(read, selected) && rSome == Outcome(read, plan);
      ReadAndStand(read, selected, nodes, plan);
    }
    if rSome == Entities.Done {
      ReadAndStand(some, selected, nodes, plan);
      ReadAndStand(all, full, nodes, plan);
    }
  }
}
