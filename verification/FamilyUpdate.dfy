/** Parent and children are two edges over one column of accounts: what an update of one account does to that column. */
module FamilyUpdate {
  import opened Collections
  import opened EdgeMutation
  import opened AccountSchema
  import opened UpdateSpec
  import opened EdgeUpdate
  import opened KeyUpdate

  // ---------- the statements of one update, in their order ----------

  ghost function TheOne(ids: set<int>): Option<int> {
    if id :| id in ids then Some(id) else None
  }

  /** First the account's own row: the parent's clear, then its add. */
  ghost function OwnRow(changes: EdgeChanges, id: int, parents: Keys): Keys
    requires id in parents
  {
    parents[id := TheOne(Effect(changes, Parent, AsSet(parents[id])))]
  }

  /** Then the rows of the children, on a table without constraints; None when the update is refused. */
  ghost function Rewritten(changes: EdgeChanges, id: int, parents: Keys): Option<Keys> {
    if id in parents then KeysAfter(changes, Children, id, OwnRow(changes, id, parents)) else None
  }

  // ---------- both edges in one column ----------

  /** The account's parent once its own row is written. */
  function OwnParent(p: Pendings, id: int, parents: Keys): Option<int>
    requires id in parents
  {
    DeferredOne(p.parent, parents[id])
  }

  /** The column between the account's own row and the rows of the children. */
  function OwnWritten(p: Pendings, id: int, parents: Keys): (written: Keys)
    requires id in parents
    ensures written.Keys == parents.Keys
  {
    parents[id := OwnParent(p, id, parents)]
  }

  lemma OwnRowIsDeferred(p: Pendings, id: int, parents: Keys)
    requires id in parents
    ensures OwnRow(AllChanges(p), id, parents) == OwnWritten(p, id, parents)
  {
    hide AllChanges, Effect, Wanted;
    AllChangesCarry(p);
    WantedInFamily(p);
    WantedOneIsDeferred(p.parent, parents[id]);
    TheOneOfSet(OwnParent(p, id, parents));
    assert Effect(AllChanges(p), Parent, AsSet(parents[id])) == Wanted(p, Parent, AsSet(parents[id]));
  }

  lemma WantedInFamily(p: Pendings)
    ensures forall linked :: Wanted(p, Parent, linked) == WantedOne(p.parent, linked)
    ensures forall linked :: Wanted(p, Children, linked) == Deferred(p.children, linked)
  {
  }

  lemma TheOneOfSet(target: Option<int>)
    ensures TheOne(AsSet(target)) == target
  {
    if target.Some? {
      assert target.value in AsSet(target);
    }
  }

  /** after is what the statements leave, row by row. */
  ghost predicate AsWritten(p: Pendings, id: int, parents: Keys, after: Keys)
    requires id in parents
  {
    var own := OwnWritten(p, id, parents);
    && after.Keys == parents.Keys
    && (forall c :: !Contested(p.children, id, own, c))
    && forall c | c in parents ::
         after[c] == if c in p.children.added then Some(id)
                     else if Released(p.children, id, own, c) then None else own[c]
  }

  lemma FamilyRows(p: Pendings, id: int, parents: Keys)
    requires id in parents
    ensures var after := Rewritten(AllChanges(p), id, parents);
            && (after.None? <==> exists c :: Contested(p.children, id, OwnWritten(p, id, parents), c))
            && (after.Some? ==> AsWritten(p, id, parents, after.value))
  {
    hide AllChanges, OwnRow, OwnWritten, Contested, Released;
    OwnRowIsDeferred(p, id, parents);
    RowByRow(p, Children, id, OwnWritten(p, id, parents));
  }

  /** The two edges in one column, constraints aside. What is wanted of the parent is lost exactly when an account
    * without one adds itself as a child, or releases itself while its own row names it; the children differ from what
    * is wanted exactly when the own row starts or stops naming the account itself and no child call mentions it.
    */
  lemma FamilyWithoutConstraints(p: Pendings, id: int, parents: Keys)
    requires id in parents && Rewritten(AllChanges(p), id, parents).Some?
    ensures var after := Rewritten(AllChanges(p), id, parents).value;
            var own := OwnParent(p, id, parents);
            var added := id in p.children.added;
            var dropped := p.children.cleared || id in p.children.removed;
            && id in after
            && (AsSet(after[id]) == Wanted(p, Parent, AsSet(parents[id])) <==>
                  !(added && own == None) && !(!added && dropped && own == Some(id)))
            && (RowsOf(after, id) == Wanted(p, Children, RowsOf(parents, id)) <==>
                  added || dropped || (own == Some(id) <==> parents[id] == Some(id)))
            && forall other | other != id :: Exchanged(after, id, other, parents, own)
  {
    FamilyRows(p, id, parents);
    WantedInFamily(p);
    WantedOneIsDeferred(p.parent, parents[id]);
    hide AllChanges, Rewritten, Wanted, WantedOne, DeferredOne;
    var after := Rewritten(AllChanges(p), id, parents).value;
    hide AsWritten, Exchanged, RowsOf, Deferred, AsSet;
    ParentOfItself(p, id, parents, after);
    AsSetInjective(after[id], OwnParent(p, id, parents));
    ChildByChild(p, id, parents, after);
    forall other | other != id
      ensures Exchanged(after, id, other, parents, OwnParent(p, id, parents))
    {
      OtherParents(p, id, other, parents, after);
    }
  }

  /** Another account's children: the updated account leaves or joins them as its own row says, the rest stay. */
  predicate Exchanged(after: Keys, id: int, other: int, parents: Keys, own: Option<int>) {
    RowsOf(after, other) == RowsOf(parents, other) - {id} + if own == Some(other) then {id} else {}
  }

  lemma ParentOfItself(p: Pendings, id: int, parents: Keys, after: Keys)
    requires id in parents && AsWritten(p, id, parents, after)
    ensures id in after
    ensures var own := OwnParent(p, id, parents);
            var added := id in p.children.added;
            var dropped := p.children.cleared || id in p.children.removed;
            after[id] == own <==> !(added && own == None) && !(!added && dropped && own == Some(id))
  {
    hide DeferredOne;
    assert !Contested(p.children, id, OwnWritten(p, id, parents), id);
  }

  lemma ChildByChild(p: Pendings, id: int, parents: Keys, after: Keys)
    requires id in parents && AsWritten(p, id, parents, after)
    ensures forall c | c != id :: c in RowsOf(after, id) <==> c in Deferred(p.children, RowsOf(parents, id))
    ensures var own := OwnParent(p, id, parents);
            var added := id in p.children.added;
            var dropped := p.children.cleared || id in p.children.removed;
            && (RowsOf(after, id) == Deferred(p.children, RowsOf(parents, id)) <==>
                  added || dropped || (own == Some(id) <==> parents[id] == Some(id)))
  {
    hide DeferredOne;
    var own := OwnWritten(p, id, parents);
    forall c
      ensures c in p.children.added ==> c in parents
    {
      assert !Contested(p.children, id, own, c);
    }
    assert forall c | c in parents && c != id :: own[c] == parents[c];
    var left, right := RowsOf(after, id), Deferred(p.children, RowsOf(parents, id));
    assert forall c | c != id :: c in left <==> c in right;
    if id in left <==> id in right {
      assert left == right;
    }
  }

  lemma OtherParents(p: Pendings, id: int, other: int, parents: Keys, after: Keys)
    requires id in parents && other != id && AsWritten(p, id, parents, after)
    ensures Exchanged(after, id, other, parents, OwnParent(p, id, parents))
  {
    hide DeferredOne;
    var own := OwnWritten(p, id, parents);
    forall c
      ensures c in RowsOf(after, other) <==> c in parents && own[c] == Some(other)
    {
      assert !Contested(p.children, id, own, c);
    }
  }

  // ---------- the table and its constraints ----------

  const GLOBAL := "global"
  const SPARK := "spark"

  /** What constrains a row of accounts: parent_account_id, quota_dimension, and whether deleted_at is NULL. */
  datatype Row = Row(parent: Option<int>, dimension: string, live: bool)

  /** All rows, soft-deleted ones included. */
  type Accounts = map<int, Row>

  function ParentsOf(accounts: Accounts): Keys {
    map c | c in accounts :: accounts[c].parent
  }

  function WithParents(accounts: Accounts, parents: Keys): Accounts
    requires parents.Keys == accounts.Keys
  {
    map c | c in accounts :: accounts[c].(parent := parents[c])
  }

  /** A dimension of two, a parent exactly in the other than the global one, which is another account that exists. */
  predicate LawfulRow(accounts: Accounts, id: int, row: Row) {
    && row.dimension in [GLOBAL, SPARK]
    && (row.parent.Some? <==> row.dimension != GLOBAL)
    && (row.parent.Some? ==> row.parent.value in accounts && row.parent.value != id)
  }

  /** The rows of the unique index. */
  predicate LiveShadow(row: Row) {
    row.parent.Some? && row.dimension == SPARK && row.live
  }

  /** Another live shadow has the parent of this one. */
  predicate Taken(accounts: Accounts, id: int, row: Row) {
    && LiveShadow(row)
    && exists c | c in accounts :: c != id && LiveShadow(accounts[c]) && accounts[c].parent == row.parent
  }

  predicate Lawful(accounts: Accounts) {
    forall c | c in accounts :: LawfulRow(accounts, c, accounts[c]) && !Taken(accounts, c, accounts[c])
  }

  // ---------- an update of the table ----------

  /** The account's own row after its one statement, which also writes quota_dimension and deleted_at. */
  function Written(m: FieldData, row: Row, parent: Option<int>): Row {
    Row(parent,
        if QuotaDimension in m.values && m.values[QuotaDimension].VEnum? then m.values[QuotaDimension].e
        else row.dimension,
        if DeletedAt in m.values then false else DeletedAt in m.cleared || row.live)
  }

  ghost function OwnStatement(changes: EdgeChanges, m: FieldData, id: int, accounts: Accounts): Accounts
    requires id in accounts
  {
    accounts[id := Written(m, accounts[id], TheOne(Effect(changes, Parent, AsSet(accounts[id].parent))))]
  }

  /** The clears and the adds of children after that; the constraints hold after each, or the update is refused. */
  function ChildStatements(changes: EdgeChanges, id: int, accounts: Accounts): Option<Accounts> {
    var cleared := AfterKeyClears(About(changes.clear, Children), id, ParentsOf(accounts));
    var added := AfterKeyAdds(About(changes.add, Children), id, cleared);
    KeepRows(About(changes.clear, Children), About(changes.add, Children), id, ParentsOf(accounts));
    if !Lawful(WithParents(accounts, cleared)) || added.None? || !Lawful(WithParents(accounts, added.value)) then None
    else Some(WithParents(accounts, added.value))
  }

  /** The table after an update of account id; None when it is refused. */
  ghost function AccountsAfter(changes: EdgeChanges, m: FieldData, id: int, accounts: Accounts): Option<Accounts> {
    if id !in accounts || !Lawful(OwnStatement(changes, m, id, accounts)) then None
    else ChildStatements(changes, id, OwnStatement(changes, m, id, accounts))
  }

  lemma {:induction false} KeepRows(clears: seq<EdgeChange>, adds: seq<EdgeChange>, id: int, keys: Keys)
    ensures AfterKeyClears(clears, id, keys).Keys == keys.Keys
    ensures var added := AfterKeyAdds(adds, id, AfterKeyClears(clears, id, keys));
            added.Some? ==> added.value.Keys == keys.Keys
    decreases |clears| + |adds|
  {
    if adds != [] {
      KeepRows(clears, adds[..|adds| - 1], id, keys);
    } else if clears != [] {
      KeepRows(clears[..|clears| - 1], adds, id, keys);
    }
  }

  // ---------- when it is refused, and what it does ----------

  /** The account's row as the update leaves it. */
  function OwnAfter(p: Pendings, m: FieldData, id: int, accounts: Accounts): Row
    requires id in accounts
  {
    Written(m, accounts[id], DeferredOne(p.parent, accounts[id].parent))
  }

  /** Its parent is the pending target, none if cleared, or as before; its dimension is the pending one; setting
    * deleted_at makes it dead, clearing it alive.
    */
  lemma OwnAfterMeaning(p: Pendings, m: FieldData, id: int, accounts: Accounts)
    requires id in accounts
    ensures var row := OwnAfter(p, m, id, accounts);
            && (p.parent.target.Some? ==> row.parent == p.parent.target)
            && (p.parent.target.None? ==>
                  row.parent == if p.parent.fieldCleared || p.parent.edgeCleared then None else accounts[id].parent)
            && (forall d | QuotaDimension in m.values && m.values[QuotaDimension] == VEnum(d) :: row.dimension == d)
            && (QuotaDimension !in m.values ==> row.dimension == accounts[id].dimension)
            && (DeletedAt in m.values ==> !row.live)
            && (DeletedAt !in m.values && DeletedAt in m.cleared ==> row.live)
            && (DeletedAt !in m.values && DeletedAt !in m.cleared ==> row.live == accounts[id].live)
  {
  }

  /** What a caller can see to be wrong with that row: it names itself or a missing parent, its dimension is unknown or
    * does not go with having a parent or none, or it would be the second live shadow of its parent.
    */
  predicate BadRow(p: Pendings, m: FieldData, id: int, accounts: Accounts)
    requires id in accounts
  {
    var row := OwnAfter(p, m, id, accounts);
    || (p.parent.target.Some? && (p.parent.target.value == id || p.parent.target.value !in accounts))
    || row.dimension !in [GLOBAL, SPARK]
    || (row.parent.Some? <==> row.dimension == GLOBAL)
    || Taken(accounts, id, row)
  }

  /** The child calls would move a row. */
  ghost predicate MovesRows(p: PendingMany, id: int, keys: Keys) {
    p.added != {} || exists c :: Released(p, id, keys, c)
  }

  /** An update is refused exactly when the account is not there, its row would be bad, or a child would be added or
    * released: no child's row can gain or lose its parent without changing its dimension. Otherwise exactly the
    * account's own row changes, both edges end as wanted, and the constraints hold again.
    */
  lemma FamilyIsReassigned(p: Pendings, m: FieldData, id: int, accounts: Accounts)
    requires Lawful(accounts)
    ensures var after := AccountsAfter(AllChanges(p), m, id, accounts);
            && (after.None? <==>
                  id !in accounts || BadRow(p, m, id, accounts) || MovesRows(p.children, id, ParentsOf(accounts)))
            && (after.Some? ==>
                  && after.value == accounts[id := OwnAfter(p, m, id, accounts)] && Lawful(after.value)
                  && Reassigned(p, id, ParentsOf(accounts), ParentsOf(after.value)))
  {
    if id in accounts {
      OwnStatementIsDeferred(p, m, id, accounts);
      LawfulOwnRow(p, m, id, accounts);
      hide AllChanges, OwnStatement, ChildStatements, OwnAfter, BadRow, MovesRows, Reassigned, Lawful;
      var own := accounts[id := OwnAfter(p, m, id, accounts)];
      if Lawful(own) {
        ChildrenStay(p, id, own);
        SameMoves(p, m, id, accounts);
        if !MovesRows(p.children, id, ParentsOf(accounts)) {
          NothingMoved(p, m, id, accounts);
        }
      }
    }
  }

  /** Parent and children end as wanted, and another account's children change by the updated account alone. */
  ghost predicate Reassigned(p: Pendings, id: int, parents: Keys, after: Keys) {
    && id in parents && id in after
    && AsSet(after[id]) == Wanted(p, Parent, AsSet(parents[id]))
    && RowsOf(after, id) == Wanted(p, Children, RowsOf(parents, id))
    && forall other | other != id :: Exchanged(after, id, other, parents, OwnParent(p, id, parents))
  }

  lemma OwnStatementIsDeferred(p: Pendings, m: FieldData, id: int, accounts: Accounts)
    requires id in accounts
    ensures OwnStatement(AllChanges(p), m, id, accounts) == accounts[id := OwnAfter(p, m, id, accounts)]
  {
    hide AllChanges, Effect, Wanted, Written;
    AllChangesCarry(p);
    WantedInFamily(p);
    WantedOneIsDeferred(p.parent, accounts[id].parent);
    TheOneOfSet(DeferredOne(p.parent, accounts[id].parent));
    assert Effect(AllChanges(p), Parent, AsSet(accounts[id].parent)) == Wanted(p, Parent, AsSet(accounts[id].parent));
  }

  /** The own row can be written exactly when it is not bad. */
  lemma LawfulOwnRow(p: Pendings, m: FieldData, id: int, accounts: Accounts)
    requires Lawful(accounts) && id in accounts
    ensures Lawful(accounts[id := OwnAfter(p, m, id, accounts)]) <==> !BadRow(p, m, id, accounts)
  {
    var row := OwnAfter(p, m, id, accounts);
    OwnRowBecomes(accounts, id, row);
    var parent := accounts[id].parent;
    assert LawfulRow(accounts, id, accounts[id]);
    assert row.parent == DeferredOne(p.parent, parent);
    hide OwnAfter, Taken, Lawful;
  }

  lemma OwnRowBecomes(accounts: Accounts, id: int, row: Row)
    requires Lawful(accounts) && id in accounts
    ensures Lawful(accounts[id := row]) <==> LawfulRow(accounts, id, row) && !Taken(accounts, id, row)
  {
    var own := accounts[id := row];
    hide LiveShadow;
    assert own.Keys == accounts.Keys;
    assert forall c | c in accounts && c != id :: own[c] == accounts[c];
    assert forall c, r :: LawfulRow(own, c, r) <==> LawfulRow(accounts, c, r);
    if Taken(accounts, id, row) {
      var c :| c in accounts && c != id && LiveShadow(accounts[c]) && accounts[c].parent == row.parent;
      assert own[c] == accounts[c];
      assert Taken(own, id, own[id]);
    }
    if LawfulRow(accounts, id, row) && !Taken(accounts, id, row) {
      forall c | c in own
        ensures LawfulRow(own, c, own[c]) && !Taken(own, c, own[c])
      {
        assert c != id ==> LawfulRow(accounts, c, accounts[c]) && !Taken(accounts, c, accounts[c]);
      }
    }
    assert Lawful(own) ==> LawfulRow(own, id, own[id]) && !Taken(own, id, own[id]);
  }

  /** On a lawful table the statements on children are refused if they move a row, and otherwise change nothing. */
  lemma ChildrenStay(p: Pendings, id: int, accounts: Accounts)
    requires Lawful(accounts)
    ensures ChildStatements(AllChanges(p), id, accounts) ==
            if MovesRows(p.children, id, ParentsOf(accounts)) then None else Some(accounts)
  {
    var keys := ParentsOf(accounts);
    RowByRow(p, Children, id, keys);
    OnlyItsSpecsMatter(p, Children);
    var cleared := AfterKeyClears(ManyChanges(Children, p.children).clear, id, keys);
    ClearedKeys(p.children, Children, id, keys, cleared);
    UnlawfulClear(p.children, id, accounts, cleared);
    hide AllChanges, About, ManyChanges, AfterKeyClears, Contested, Lawful, WithParents, ParentsOf, Released;
    if !exists c :: Released(p.children, id, keys, c) {
      SameRowsAreEqual(cleared, keys);
      var after := KeysAfter(AllChanges(p), Children, id, keys);
      if after.Some? {
        UnlawfulAdd(p.children, id, accounts, after.value);
      }
    }
  }

  lemma UnlawfulClear(p: PendingMany, id: int, accounts: Accounts, cleared: Keys)
    requires Lawful(accounts) && cleared.Keys == accounts.Keys
    requires forall c | c in accounts ::
               cleared[c] == if Released(p, id, ParentsOf(accounts), c) then None else accounts[c].parent
    ensures Lawful(WithParents(accounts, cleared)) <==> !exists c :: Released(p, id, ParentsOf(accounts), c)
  {
    var after := WithParents(accounts, cleared);
    if c :| Released(p, id, ParentsOf(accounts), c) {
      assert LawfulRow(accounts, c, accounts[c]) && !LawfulRow(after, c, after[c]);
    } else {
      assert forall c | c in accounts :: after[c] == accounts[c];
      assert after == accounts;
    }
  }

  lemma UnlawfulAdd(p: PendingMany, id: int, accounts: Accounts, added: Keys)
    requires Lawful(accounts) && added.Keys == accounts.Keys
    requires forall c :: !Released(p, id, ParentsOf(accounts), c) && !Contested(p, id, ParentsOf(accounts), c)
    requires forall c | c in accounts :: added[c] == if c in p.added then Some(id) else accounts[c].parent
    ensures if p.added == {} then WithParents(accounts, added) == accounts
            else !Lawful(WithParents(accounts, added))
  {
    var after := WithParents(accounts, added);
    if c :| c in p.added {
      assert !Contested(p, id, ParentsOf(accounts), c);
      assert LawfulRow(accounts, c, accounts[c]) && !LawfulRow(after, c, after[c]);
    } else {
      assert (forall c :: c !in p.added) ==> p.added == {};
      assert forall c | c in accounts :: after[c] == accounts[c];
      assert after == accounts;
    }
  }

  /** Writing the own row lawfully neither makes nor unmakes a child of its own. */
  lemma SameMoves(p: Pendings, m: FieldData, id: int, accounts: Accounts)
    requires id in accounts && Lawful(accounts) && Lawful(accounts[id := OwnAfter(p, m, id, accounts)])
    ensures var own := accounts[id := OwnAfter(p, m, id, accounts)];
            MovesRows(p.children, id, ParentsOf(own)) <==> MovesRows(p.children, id, ParentsOf(accounts))
  {
    var own := accounts[id := OwnAfter(p, m, id, accounts)];
    assert LawfulRow(accounts, id, accounts[id]) && LawfulRow(own, id, own[id]);
    forall c
      ensures Released(p.children, id, ParentsOf(own), c) <==> Released(p.children, id, ParentsOf(accounts), c)
    {
      assert c != id && c in accounts ==> own[c] == accounts[c];
    }
  }

  lemma NothingMoved(p: Pendings, m: FieldData, id: int, accounts: Accounts)
    requires id in accounts && Lawful(accounts) && Lawful(accounts[id := OwnAfter(p, m, id, accounts)])
    requires !MovesRows(p.children, id, ParentsOf(accounts))
    ensures Reassigned(p, id, ParentsOf(accounts), ParentsOf(accounts[id := OwnAfter(p, m, id, accounts)]))
  {
    var parents, own := ParentsOf(accounts), accounts[id := OwnAfter(p, m, id, accounts)];
    var after := ParentsOf(own);
    assert LawfulRow(accounts, id, accounts[id]) && LawfulRow(own, id, own[id]);
    assert after[id] == OwnParent(p, id, parents);
    assert forall c | c in accounts && c != id :: after[c] == parents[c];
    hide OwnAfter, Lawful, OwnParent, MovesRows, Reassigned;
    OwnRowAlone(p, id, parents, after);
  }

  /** Writing only the account's own parent, not to itself, does what both edges say if no child is to be moved. */
  lemma OwnRowAlone(p: Pendings, id: int, parents: Keys, after: Keys)
    requires id in parents && after.Keys == parents.Keys && !MovesRows(p.children, id, parents)
    requires after[id] == OwnParent(p, id, parents) && after[id] != Some(id) && parents[id] != Some(id)
    requires forall c | c in parents && c != id :: after[c] == parents[c]
    ensures Reassigned(p, id, parents, after)
  {
    WantedOneIsDeferred(p.parent, parents[id]);
    WantedInFamily(p);
    hide DeferredOne, Wanted, WantedOne;
    forall c
      ensures c in RowsOf(after, id) <==> c in Deferred(p.children, RowsOf(parents, id))
    {
      assert !Released(p.children, id, parents, c);
    }
    assert RowsOf(after, id) == Deferred(p.children, RowsOf(parents, id));
    forall other | other != id
      ensures Exchanged(after, id, other, parents, OwnParent(p, id, parents))
    {
      assert forall c :: c in RowsOf(after, other) <==>
                         c in RowsOf(parents, other) - {id} + if after[id] == Some(other) then {id} else {};
    }
  }

  /** The repository's own update sets the dimension, and the parent if it has one (SetNillableParentAccountID). Without
    * one it is refused unless the row keeps its dimension, so it can never turn a shadow back into a normal account.
    */
  lemma RepositoryUpdateIff(parent: Option<int>, dimension: string, m: FieldData, id: int, accounts: Accounts)
    requires Lawful(accounts) && id in accounts
    requires m.values == m.values[QuotaDimension := VEnum(dimension)] && DeletedAt !in m.values.Keys + m.cleared
    ensures var p := Pendings(NOTHING, UNTOUCHED, PendingOne(parent, false, false), NOTHING, NOTHING);
            var after := AccountsAfter(AllChanges(p), m, id, accounts);
            && (after.Some? <==>
                  if parent.None? then dimension == accounts[id].dimension
                  else parent.value in accounts && parent.value != id && dimension == SPARK
                       && !Taken(accounts, id, accounts[id].(parent := parent, dimension := SPARK)))
            && (after.Some? ==>
                  && id in after.value && after.value[id].dimension == dimension
                  && after.value[id].parent == if parent.None? then accounts[id].parent else parent)
  {
    var p := Pendings(NOTHING, UNTOUCHED, PendingOne(parent, false, false), NOTHING, NOTHING);
    assert QuotaDimension in m.values && m.values[QuotaDimension] == VEnum(dimension);
    assert LawfulRow(accounts, id, accounts[id]) && !Taken(accounts, id, accounts[id]);
    assert OwnAfter(p, m, id, accounts) ==
           Row(if parent.None? then accounts[id].parent else parent, dimension, accounts[id].live);
    assert !MovesRows(p.children, id, ParentsOf(accounts));
    hide AllChanges, AccountsAfter, Lawful, Taken, Reassigned, OwnAfter, MovesRows, ParentsOf;
    FamilyIsReassigned(p, m, id, accounts);
  }

  // ---------- sequences of calls ----------

  /** So the calls on both edges of a fresh mutation take effect one by one, except for a lost clear of the parent. */
  lemma FamilyCallsTakeEffect(
    p: Pendings, m: FieldData, id: int, accounts: Accounts, ops: seq<OneOp>, kids: seq<ManyOp>)
    requires Lawful(accounts) && p.parent == RecordedOneAll(ops) && p.children == RecordedAll(kids)
    requires AccountsAfter(AllChanges(p), m, id, accounts).Some?
    ensures var after := AccountsAfter(AllChanges(p), m, id, accounts).value;
            && id in accounts && id in after
            && (after[id].parent == PerformedOne(accounts[id].parent, ops) <==> !ClearIsLost(ops))
            && RowsOf(ParentsOf(after), id) == PerformedAll(RowsOf(ParentsOf(accounts), id), kids)
  {
    FamilyIsReassigned(p, m, id, accounts);
    hide AllChanges, AccountsAfter, Lawful, RowsOf, Exchanged, Released, RecordedOneAll, RecordedAll, Stale;
    var after := AccountsAfter(AllChanges(p), m, id, accounts).value;
    WantedInFamily(p);
    WantedOneIsDeferred(p.parent, accounts[id].parent);
    AsSetInjective(after[id].parent, DeferredOne(p.parent, accounts[id].parent));
    DeferredOneIsPerformedIff(accounts[id].parent, ops);
    DeferredIsPerformedAndStale(RowsOf(ParentsOf(accounts), id), kids);
  }

  /** A shadow's parent can become its shadow in turn: nothing but the one live shadow of each parent stands against it,
    * so two accounts can be each other's parents.
    */
  lemma MutualParentsIff(a: int, b: int, m: FieldData, accounts: Accounts)
    requires Lawful(accounts) && a in accounts && b in accounts && accounts[b].parent == Some(a)
    requires QuotaDimension in m.values && m.values[QuotaDimension] == VEnum(SPARK)
    ensures var p := Pendings(NOTHING, UNTOUCHED, RecordedOne(UNTOUCHED, Set(b)), NOTHING, NOTHING);
            var after := AccountsAfter(AllChanges(p), m, a, accounts);
            && (after.None? <==> Taken(accounts, a, OwnAfter(p, m, a, accounts)))
            && (after.Some? ==>
                  && a in after.value && b in after.value
                  && after.value[a].parent == Some(b) && after.value[b].parent == Some(a))
  {
    var p := Pendings(NOTHING, UNTOUCHED, RecordedOne(UNTOUCHED, Set(b)), NOTHING, NOTHING);
    assert LawfulRow(accounts, b, accounts[b]);
    FamilyIsReassigned(p, m, a, accounts);
    hide AllChanges, AccountsAfter, Lawful, Taken, Reassigned;
  }
}
