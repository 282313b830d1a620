/** The links of an account before and after an update of all five edges, refused as a whole if one statement is. */
module UpdateTransaction {
  import opened Collections
  import opened EdgeMutation
  import opened UpdateSpec
  import opened EdgeUpdate
  import opened KeyUpdate
  import opened FamilyUpdate

  /** What an update of one account reads and writes: the groups it is linked to and those that exist, its proxy and
    * those that exist, the rows of all accounts, and account_id of every usage log.
    */
  datatype Database = Database(
    linked: set<int>, groups: set<int>, proxy: Option<int>, proxies: set<int>, accounts: Accounts, logs: Keys)

  /** usage_logs.account_id is never NULL. */
  predicate AllNamed(logs: Keys) {
    forall c | c in logs :: logs[c].Some?
  }

  /** The constraints of the five tables. */
  predicate Consistent(db: Database) {
    && db.linked <= db.groups && (db.proxy.Some? ==> db.proxy.value in db.proxies)
    && Lawful(db.accounts) && AllNamed(db.logs)
  }

  /** The ids linked to an account over an edge. */
  function Linked(db: Database, id: int, e: EdgeName): set<int>
    requires id in db.accounts
  {
    match e
    case Groups => db.linked
    case Proxy => AsSet(db.proxy)
    case Parent => AsSet(db.accounts[id].parent)
    case Children => RowsOf(ParentsOf(db.accounts), id)
    case UsageLogs => RowsOf(db.logs, id)
  }

  // ---------- groups: rows of the through table ----------

  /** INSERT INTO account_groups: refused if the row exists, by the primary key, or the group does not. */
  function AfterInserts(changes: seq<EdgeChange>, linked: set<int>, groups: set<int>): Option<set<int>> {
    if changes == [] then Some(linked)
    else match AfterInserts(changes[..|changes| - 1], linked, groups)
      case None => None
      case Some(before) =>
        var nodes := changes[|changes| - 1].nodes;
        if nodes !! before && nodes <= groups then Some(before + nodes) else None
  }

  function GroupsAfter(changes: EdgeChanges, linked: set<int>, groups: set<int>): Option<set<int>> {
    AfterInserts(About(changes.add, Groups), AfterClears(changes.clear, Groups, linked), groups)
  }

  /** A group that is added without existing, or while a link to it exists that this update does not remove. */
  predicate Doubled(p: PendingMany, linked: set<int>, groups: set<int>, g: int) {
    g in p.added && (g !in groups || (g in linked && !p.cleared && g !in p.removed))
  }

  lemma {:induction false} ClearsOfAnEdge(changes: seq<EdgeChange>, e: EdgeName, linked: set<int>)
    ensures AfterClears(changes, e, linked) == AfterClears(About(changes, e), e, linked)
  {
    if changes != [] {
      var before, last := changes[..|changes| - 1], changes[|changes| - 1];
      ClearsOfAnEdge(before, e, linked);
      assert last.edge == e ==> (About(before, e) + [last])[..|About(before, e)|] == About(before, e);
    }
  }

  /** The links are refused exactly when some added group is doubled; otherwise they are the wanted ones. */
  lemma GroupsAreLinked(p: Pendings, linked: set<int>, groups: set<int>)
    ensures var after := GroupsAfter(AllChanges(p), linked, groups);
            && (after.None? <==> exists g :: Doubled(p.groups, linked, groups, g))
            && (after.Some? ==> after.value == Deferred(p.groups, linked))
  {
    OnlyItsSpecsMatter(p, Groups);
    ClearsOfAnEdge(AllChanges(p).clear, Groups, linked);
    GroupSpecs(p.groups, linked, groups);
    hide AllChanges, About, ManyChanges, AfterClears, AfterInserts, Doubled, Deferred;
  }

  lemma GroupSpecs(p: PendingMany, linked: set<int>, groups: set<int>)
    ensures var changes := ManyChanges(Groups, p);
            var after := AfterInserts(changes.add, AfterClears(changes.clear, Groups, linked), groups);
            && (after.None? <==> exists g :: Doubled(p, linked, groups, g))
            && (after.Some? ==> after.value == Deferred(p, linked))
  {
    var changes := ManyChanges(Groups, p);
    var rest := if p.cleared then {} else linked - p.removed;
    assert changes.clear != [] ==> changes.clear[..|changes.clear| - 1] == [];
    assert AfterClears(changes.clear, Groups, linked) == rest;
    assert changes.add != [] ==> changes.add[..|changes.add| - 1] == [];
    assert AfterInserts([], rest, groups) == Some(rest);
    assert forall g | g in p.added :: Doubled(p, linked, groups, g) <==> g in rest || g !in groups;
    if !(p.added <= groups) {
      assert (forall g | g in p.added :: g in groups) ==> p.added <= groups;
      var g :| g in p.added && g !in groups;
      assert Doubled(p, linked, groups, g);
    } else if !(p.added !! rest) {
      assert (forall g | g in p.added :: g !in p.added * rest) ==> p.added !! rest;
      var g :| g in p.added * rest;
      assert Doubled(p, linked, groups, g);
    }
  }

  // ---------- the proxy and the usage logs ----------

  ghost function ProxyAfter(changes: EdgeChanges, proxy: Option<int>, proxies: set<int>): Option<Option<int>> {
    var after := TheOne(Effect(changes, Proxy, AsSet(proxy)));
    if after.Some? && after.value !in proxies then None else Some(after)
  }

  lemma ProxyIsLinked(p: Pendings, proxy: Option<int>, proxies: set<int>)
    requires proxy.Some? ==> proxy.value in proxies
    ensures ProxyAfter(AllChanges(p), proxy, proxies) ==
            if p.proxy.target.Some? && p.proxy.target.value !in proxies then None else Some(DeferredOne(p.proxy, proxy))
  {
    hide AllChanges, Effect;
    AllChangesCarry(p);
    WantedOneIsDeferred(p.proxy, proxy);
    TheOneOfSet(DeferredOne(p.proxy, proxy));
    assert Effect(AllChanges(p), Proxy, AsSet(proxy)) == Wanted(p, Proxy, AsSet(proxy));
  }

  /** A statement that leaves a log without an account is refused. */
  function LogsAfter(changes: EdgeChanges, id: int, logs: Keys): Option<Keys> {
    if AllNamed(AfterKeyClears(About(changes.clear, UsageLogs), id, logs)) then KeysAfter(changes, UsageLogs, id, logs)
    else None
  }

  /** No update can move a usage log: it is refused when it adds one or releases one, and else leaves them alone. */
  lemma LogsStay(p: Pendings, id: int, logs: Keys)
    requires AllNamed(logs)
    ensures var after := LogsAfter(AllChanges(p), id, logs);
            && (after.None? <==> MovesRows(p.usageLogs, id, logs))
            && (after.Some? ==> after.value == logs && Deferred(p.usageLogs, RowsOf(logs, id)) == RowsOf(logs, id))
  {
    RowByRow(p, UsageLogs, id, logs);
    OnlyItsSpecsMatter(p, UsageLogs);
    hide AllChanges, About, ManyChanges, KeysAfter, AfterKeyClears, Contested, Released, AllNamed, Deferred, RowsOf;
    var cleared := AfterKeyClears(ManyChanges(UsageLogs, p.usageLogs).clear, id, logs);
    ClearedKeys(p.usageLogs, UsageLogs, id, logs, cleared);
    NamedLogs(p.usageLogs, id, logs, cleared);
    var after := KeysAfter(AllChanges(p), UsageLogs, id, logs);
    if AllNamed(cleared) && p.usageLogs.added == {} {
      SameRowsAreEqual(after.value, logs);
    }
  }

  lemma NamedLogs(p: PendingMany, id: int, logs: Keys, cleared: Keys)
    requires AllNamed(logs) && cleared.Keys == logs.Keys
    requires forall c | c in logs :: cleared[c] == if Released(p, id, logs, c) then None else logs[c]
    ensures AllNamed(cleared) <==> !exists c :: Released(p, id, logs, c)
    ensures AllNamed(cleared) ==> ((exists c :: Contested(p, id, logs, c)) <==> p.added != {})
    ensures AllNamed(cleared) && p.added == {} ==> Deferred(p, RowsOf(logs, id)) == RowsOf(logs, id)
  {
    if AllNamed(cleared) {
      forall c | c in cleared
        ensures !Released(p, id, logs, c)
      {
        assert cleared[c].Some?;
      }
      if c :| c in p.added {
        assert Contested(p, id, logs, c);
      } else {
        assert (forall c :: c !in p.added) ==> p.added == {};
        forall c | c in RowsOf(logs, id)
          ensures c in Deferred(p, RowsOf(logs, id))
        {
          assert !Released(p, id, logs, c);
        }
      }
    } else {
      var c :| c in cleared && cleared[c].None?;
      assert Released(p, id, logs, c);
    }
  }

  // ---------- all five edges ----------

  /** One transaction: everything the update writes, or nothing. */
  ghost function Updated(changes: EdgeChanges, m: FieldData, id: int, db: Database): Option<Database> {
    var linked := GroupsAfter(changes, db.linked, db.groups);
    var proxy := ProxyAfter(changes, db.proxy, db.proxies);
    var accounts := AccountsAfter(changes, m, id, db.accounts);
    var logs := LogsAfter(changes, id, db.logs);
    if linked.None? || proxy.None? || accounts.None? || logs.None? then None
    else Some(db.(linked := linked.value, proxy := proxy.value, accounts := accounts.value, logs := logs.value))
  }

  /** What a caller can see to be wrong with an update before it is sent. */
  ghost predicate Refused(p: Pendings, m: FieldData, id: int, db: Database) {
    || id !in db.accounts
    || (exists g :: Doubled(p.groups, db.linked, db.groups, g))
    || (p.proxy.target.Some? && p.proxy.target.value !in db.proxies)
    || BadRow(p, m, id, db.accounts)
    || MovesRows(p.children, id, ParentsOf(db.accounts))
    || MovesRows(p.usageLogs, id, db.logs)
  }

  /** An update is refused exactly when something of that is wrong. Otherwise every edge ends as wanted, although two
    * share a column and two can never be moved from this side: of the accounts only the updated row changes, no usage
    * log does, and all constraints hold again.
    */
  lemma UpdateTakesEffect(p: Pendings, m: FieldData, id: int, db: Database)
    requires Consistent(db)
    ensures var after := Updated(AllChanges(p), m, id, db);
            && (after.None? <==> Refused(p, m, id, db))
            && (after.Some? ==>
                  && Consistent(after.value) && id in db.accounts && id in after.value.accounts
                  && after.value.accounts == db.accounts[id := OwnAfter(p, m, id, db.accounts)]
                  && after.value.logs == db.logs
                  && forall e :: Linked(after.value, id, e) == Wanted(p, e, Linked(db, id, e)))
  {
    RefusedIff(p, m, id, db);
    hide AllChanges, Updated, Refused, Consistent, Linked, Wanted;
    if !Refused(p, m, id, db) {
      EdgesEndAsWanted(p, m, id, db);
    }
  }

  lemma RefusedIff(p: Pendings, m: FieldData, id: int, db: Database)
    requires Consistent(db)
    ensures Updated(AllChanges(p), m, id, db).None? <==> Refused(p, m, id, db)
  {
    GroupsAreLinked(p, db.linked, db.groups);
    ProxyIsLinked(p, db.proxy, db.proxies);
    FamilyIsReassigned(p, m, id, db.accounts);
    LogsStay(p, id, db.logs);
    hide AllChanges, GroupsAfter, ProxyAfter, AccountsAfter, LogsAfter, Deferred, DeferredOne, Reassigned;
    hide Doubled, BadRow, Contested, Released, MovesRows, Lawful, AllNamed, RowsOf, Exchanged;
  }

  lemma EdgesEndAsWanted(p: Pendings, m: FieldData, id: int, db: Database)
    requires Consistent(db) && !Refused(p, m, id, db)
    ensures var after := Updated(AllChanges(p), m, id, db);
            && after.Some? && Consistent(after.value) && id in db.accounts && id in after.value.accounts
            && after.value.accounts == db.accounts[id := OwnAfter(p, m, id, db.accounts)]
            && after.value.logs == db.logs
            && forall e :: Linked(after.value, id, e) == Wanted(p, e, Linked(db, id, e))
  {
    RefusedIff(p, m, id, db);
    assert Updated(AllChanges(p), m, id, db).Some?;
    GroupsAreLinked(p, db.linked, db.groups);
    ProxyIsLinked(p, db.proxy, db.proxies);
    FamilyIsReassigned(p, m, id, db.accounts);
    LogsStay(p, id, db.logs);
    GroupsExist(p, db);
    WantedOneIsDeferred(p.proxy, db.proxy);
    hide AllChanges, GroupsAfter, ProxyAfter, AccountsAfter, LogsAfter, Refused;
    hide Doubled, BadRow, Contested, Released, MovesRows, Lawful, AllNamed, RowsOf, Exchanged;
  }

  lemma GroupsExist(p: Pendings, db: Database)
    requires db.linked <= db.groups && !exists g :: Doubled(p.groups, db.linked, db.groups, g)
    ensures Deferred(p.groups, db.linked) <= db.groups
  {
    forall g | g in p.groups.added
      ensures g in db.groups
    {
      assert !Doubled(p.groups, db.linked, db.groups, g);
    }
  }

  // ---------- sequences of calls ----------

  /** The calls on the five edges of one update builder. */
  datatype Calls = Calls(
    groups: seq<ManyOp>, proxy: seq<OneOp>, parent: seq<OneOp>, children: seq<ManyOp>, usageLogs: seq<ManyOp>)

  function RecordedCalls(calls: Calls): Pendings {
    Pendings(RecordedAll(calls.groups), RecordedOneAll(calls.proxy), RecordedOneAll(calls.parent),
             RecordedAll(calls.children), RecordedAll(calls.usageLogs))
  }

  /** The links if every call were performed on the spot. */
  function PerformedCalls(calls: Calls, db: Database, id: int, e: EdgeName): set<int>
    requires id in db.accounts
  {
    match e
    case Groups => PerformedAll(db.linked, calls.groups)
    case Proxy => AsSet(PerformedOne(db.proxy, calls.proxy))
    case Parent => AsSet(PerformedOne(db.accounts[id].parent, calls.parent))
    case Children => PerformedAll(RowsOf(ParentsOf(db.accounts), id), calls.children)
    case UsageLogs => PerformedAll(RowsOf(db.logs, id), calls.usageLogs)
  }

  /** An update that is not refused acts on all edges as its calls say one by one, exactly when no clear of a to-many
    * edge left an addition pending and no final clear of a to-one edge is lost to a pending target.
    */
  lemma CallsTakeEffectIff(calls: Calls, m: FieldData, id: int, db: Database)
    requires Consistent(db) && Updated(AllChanges(RecordedCalls(calls)), m, id, db).Some?
    ensures id in db.accounts
    ensures var after := Updated(AllChanges(RecordedCalls(calls)), m, id, db).value;
            && id in after.accounts
            && ((forall e :: Linked(after, id, e) == PerformedCalls(calls, db, id, e)) <==>
                  && Stale(calls.groups) == {}
                  && !ClearIsLost(calls.proxy) && !ClearIsLost(calls.parent))
  {
    var p := RecordedCalls(calls);
    UpdateTakesEffect(p, m, id, db);
    hide AllChanges, Updated, Consistent, RowsOf, Deferred, PerformedAll, Stale, WantedOne, AsSet, ClearIsLost;
    var after := Updated(AllChanges(p), m, id, db).value;
    DeferredIsPerformedIff(db.linked, calls.groups);
    DeferredIsPerformedIff(RowsOf(ParentsOf(db.accounts), id), calls.children);
    DeferredIsPerformedIff(RowsOf(db.logs, id), calls.usageLogs);
    NoRowsAreStale(calls, m, id, db);
    ToOneIff(p.proxy, calls.proxy, db.proxy);
    ToOneIff(p.parent, calls.parent, db.accounts[id].parent);
    ByEdge(p, calls, id, db, after);
  }

  lemma ToOneIff(p: PendingOne, ops: seq<OneOp>, linked: Option<int>)
    requires p == RecordedOneAll(ops)
    ensures WantedOne(p, AsSet(linked)) == AsSet(PerformedOne(linked, ops)) <==> !ClearIsLost(ops)
  {
    WantedOneIsDeferred(p, linked);
    DeferredOneIsPerformedIff(linked, ops);
    AsSetInjective(DeferredOne(p, linked), PerformedOne(linked, ops));
  }

  /** An accepted update has no child and no usage log pending. */
  lemma NoRowsAreStale(calls: Calls, m: FieldData, id: int, db: Database)
    requires !Refused(RecordedCalls(calls), m, id, db)
    ensures Stale(calls.children) == Stale(calls.usageLogs) == {}
  {
    DeferredIsPerformedAndStale({}, calls.children);
    DeferredIsPerformedAndStale({}, calls.usageLogs);
  }

  /** What the five edges end with and what their calls say, one by one. */
  lemma ByEdge(p: Pendings, calls: Calls, id: int, db: Database, after: Database)
    requires id in db.accounts && id in after.accounts
    requires forall e :: Linked(after, id, e) == Wanted(p, e, Linked(db, id, e))
    ensures var parent, children := db.accounts[id].parent, RowsOf(ParentsOf(db.accounts), id);
            (forall e :: Linked(after, id, e) == PerformedCalls(calls, db, id, e)) <==>
            && Deferred(p.groups, db.linked) == PerformedAll(db.linked, calls.groups)
            && WantedOne(p.proxy, AsSet(db.proxy)) == AsSet(PerformedOne(db.proxy, calls.proxy))
            && WantedOne(p.parent, AsSet(parent)) == AsSet(PerformedOne(parent, calls.parent))
            && Deferred(p.children, children) == PerformedAll(children, calls.children)
            && Deferred(p.usageLogs, RowsOf(db.logs, id)) == PerformedAll(RowsOf(db.logs, id), calls.usageLogs)
  {
    hide RowsOf, Deferred, PerformedAll, WantedOne, AsSet, PerformedOne;
    forall e
      ensures Linked(after, id, e) == PerformedCalls(calls, db, id, e) <==>
              Wanted(p, e, Linked(db, id, e)) == PerformedCalls(calls, db, id, e)
    {
    }
    assert Linked(after, id, Groups) == Wanted(p, Groups, Linked(db, id, Groups));
    assert Linked(after, id, Proxy) == Wanted(p, Proxy, Linked(db, id, Proxy));
    assert Linked(after, id, Parent) == Wanted(p, Parent, Linked(db, id, Parent));
    assert Linked(after, id, Children) == Wanted(p, Children, Linked(db, id, Children));
    assert Linked(after, id, UsageLogs) == Wanted(p, UsageLogs, Linked(db, id, UsageLogs));
  }
}
