/** AccountQuery.sqlAll: read the rows, then load every requested edge; and what the edge accessors then answer. */
module AccountLoading {
  import opened Collections
  import opened Entities
  import opened GroupLoading
  import opened ToOneIndex
  import opened ToOneLoading
  import opened ToManyLoading

  datatype AccountRow = AccountRow(id: int, proxyID: Option<int>, parentAccountID: Option<int>)

  /** The eager-load builders of a query; each is the database's answer to the keys it is asked about. */
  datatype Plan = Plan(
    groups: Option<seq<int> -> Answer<JoinRow>>,
    proxy: Option<seq<int> -> Answer<Proxy>>,
    parent: Option<seq<int> -> Answer<Account>>,
    children: Option<seq<int> -> Answer<Account>>,
    usageLogs: Option<seq<int> -> Answer<UsageLog>>,
    accountGroups: Option<seq<int> -> Answer<AccountGroup>>)
  {
    function Requests(): Requested {
      Requested(groups.Some?, proxy.Some?, parent.Some?, children.Some?, usageLogs.Some?, accountGroups.Some?)
    }
  }

  function GroupsOutcome(nodes: seq<Account>, answer: Answer<JoinRow>): LoadResult {
    match answer
    case QueryError => QueryFailed
    case Rows(rows) =>
      if forall i | 0 <= i < |rows| :: rows[i].accountID in IDs(nodes) then Done else NilDereference
  }

  function ChildrenOutcome(nodes: seq<Account>, answer: Answer<Account>): LoadResult {
    match answer case QueryError => QueryFailed case Rows(neighbors) => LoadChildrenOutcome(nodes, neighbors)
  }

  function UsageLogsOutcome(nodes: seq<Account>, answer: Answer<UsageLog>): LoadResult {
    match answer case QueryError => QueryFailed case Rows(neighbors) => LoadUsageLogsOutcome(nodes, neighbors)
  }

  function AccountGroupsOutcome(nodes: seq<Account>, answer: Answer<AccountGroup>): LoadResult {
    match answer case QueryError => QueryFailed case Rows(neighbors) => LoadAccountGroupsOutcome(nodes, neighbors)
  }

  function GroupsStep(nodes: seq<Account>, plan: Plan): LoadResult {
    if plan.groups.None? then Done else GroupsOutcome(nodes, plan.groups.value(IDs(nodes)))
  }

  function ProxyStep(nodes: seq<Account>, plan: Plan): LoadResult {
    if plan.proxy.None? then Done else ToOneOutcome(ProxyKeys(nodes), plan.proxy.value, ProxyID)
  }

  function ParentStep(nodes: seq<Account>, plan: Plan): LoadResult {
    if plan.parent.None? then Done else ToOneOutcome(ParentKeys(nodes), plan.parent.value, AccountID)
  }

  function ChildrenStep(nodes: seq<Account>, plan: Plan): LoadResult {
    if plan.children.None? then Done else ChildrenOutcome(nodes, plan.children.value(IDs(nodes)))
  }

  function UsageLogsStep(nodes: seq<Account>, plan: Plan): LoadResult {
    if plan.usageLogs.None? then Done else UsageLogsOutcome(nodes, plan.usageLogs.value(IDs(nodes)))
  }

  function AccountGroupsStep(nodes: seq<Account>, plan: Plan): LoadResult {
    if plan.accountGroups.None? then Done else AccountGroupsOutcome(nodes, plan.accountGroups.value(IDs(nodes)))
  }

  /** The loaders run in this order and the first error ends the query. */
  function Outcome(nodes: seq<Account>, plan: Plan): LoadResult {
    if GroupsStep(nodes, plan) != Done then GroupsStep(nodes, plan)
    else if ProxyStep(nodes, plan) != Done then ProxyStep(nodes, plan)
    else if ParentStep(nodes, plan) != Done then ParentStep(nodes, plan)
    else if ChildrenStep(nodes, plan) != Done then ChildrenStep(nodes, plan)
    else if UsageLogsStep(nodes, plan) != Done then UsageLogsStep(nodes, plan)
    else AccountGroupsStep(nodes, plan)
  }

  function AsEdge<T>(found: Option<T>): Edge<T> {
    match found case Some(v) => Loaded(v) case None => NotFound
  }

  ghost predicate GroupsAnswer(nodes: seq<Account>, plan: Plan)
    reads nodes
  {
    && (forall n | n in nodes :: n.GroupsOrErr() == if plan.groups.None? then NotLoaded else Loaded(n.groups))
    && (plan.groups.Some? && plan.groups.value(IDs(nodes)).Rows? ==>
          HasJoinedGroups(nodes, plan.groups.value(IDs(nodes)).rows) && SharesGroups(nodes))
  }

  ghost predicate ProxyAnswers(nodes: seq<Account>, plan: Plan)
    reads nodes
  {
    forall n | n in nodes ::
      n.ProxyOrErr() == if plan.proxy.None? then NotLoaded
                        else AsEdge(Resolved(ProxyKeys(nodes), plan.proxy.value, ProxyID, n.proxyID))
  }

  ghost predicate ParentAnswers(nodes: seq<Account>, plan: Plan)
    reads nodes
  {
    forall n | n in nodes ::
      n.ParentOrErr() == if plan.parent.None? then NotLoaded
                         else AsEdge(Resolved(ParentKeys(nodes), plan.parent.value, AccountID, n.parentAccountID))
  }

  ghost predicate ChildrenAnswer(nodes: seq<Account>, plan: Plan)
    reads nodes
  {
    forall n | n in nodes ::
      n.ChildrenOrErr() == if plan.children.None? then NotLoaded
                           else Loaded(Owned(nodes, n, plan.children.value(IDs(nodes)), ChildOf(n.id)))
  }

  ghost predicate UsageLogsAnswer(nodes: seq<Account>, plan: Plan)
    reads nodes
  {
    forall n | n in nodes ::
      n.UsageLogsOrErr() == if plan.usageLogs.None? then NotLoaded
                                else Loaded(Owned(nodes, n, plan.usageLogs.value(IDs(nodes)), LogOf(n.id)))
  }

  ghost predicate AccountGroupsAnswer(nodes: seq<Account>, plan: Plan)
    reads nodes
  {
    forall n | n in nodes ::
      n.AccountGroupsOrErr() == if plan.accountGroups.None? then NotLoaded
                                else Loaded(Owned(nodes, n, plan.accountGroups.value(IDs(nodes)), MembershipOf(n.id)))
  }

  /** What each accessor answers: the value, absent although asked for, or not asked for. */
  ghost predicate AccessorsAnswer(nodes: seq<Account>, plan: Plan)
    reads nodes
  {
    && GroupsAnswer(nodes, plan)
    && ProxyAnswers(nodes, plan)
    && ParentAnswers(nodes, plan)
    && ChildrenAnswer(nodes, plan)
    && UsageLogsAnswer(nodes, plan)
    && AccountGroupsAnswer(nodes, plan)
  }

  /** The answered neighbours a node owns, in the order they were answered. */
  function Owned<T>(nodes: seq<Account>, n: Account, answer: Answer<T>, mine: T -> bool): seq<T> {
    if Owner(nodes, n.id) == n && answer.Rows? then Filter(answer.rows, mine) else []
  }

  ghost predicate Untouched(nodes: seq<Account>, plan: Plan)
    reads nodes
  {
    forall n | n in nodes ::
      && n.loadedTypes == plan.Requests()
      && n.groups == [] && n.proxy == null && n.parent == null
      && n.children == [] && n.usageLogs == [] && n.accountGroups == []
  }

  ghost predicate GroupsLoaded(nodes: seq<Account>, plan: Plan)
    reads nodes`groups
  {
    plan.groups.Some? && plan.groups.value(IDs(nodes)).Rows? ==>
      HasJoinedGroups(nodes, plan.groups.value(IDs(nodes)).rows) && SharesGroups(nodes)
  }

  ghost predicate ProxyLoaded(nodes: seq<Account>, plan: Plan)
    reads nodes`proxy
  {
    forall n | n in nodes ::
      n.proxy == if plan.proxy.None? then null
                 else OrElse(Resolved(ProxyKeys(nodes), plan.proxy.value, ProxyID, n.proxyID), null)
  }

  ghost predicate ParentLoaded(nodes: seq<Account>, plan: Plan)
    reads nodes`parent
  {
    forall n | n in nodes ::
      n.parent == if plan.parent.None? then null
                  else OrElse(Resolved(ParentKeys(nodes), plan.parent.value, AccountID, n.parentAccountID), null)
  }

  ghost predicate ChildrenLoaded(nodes: seq<Account>, plan: Plan)
    reads nodes`children
  {
    forall n | n in nodes ::
      n.children == if plan.children.None? then [] else Owned(nodes, n, plan.children.value(IDs(nodes)), ChildOf(n.id))
  }

  ghost predicate UsageLogsLoaded(nodes: seq<Account>, plan: Plan)
    reads nodes`usageLogs
  {
    forall n | n in nodes ::
      n.usageLogs == if plan.usageLogs.None? then []
                         else Owned(nodes, n, plan.usageLogs.value(IDs(nodes)), LogOf(n.id))
  }

  ghost predicate AccountGroupsLoaded(nodes: seq<Account>, plan: Plan)
    reads nodes`accountGroups
  {
    forall n | n in nodes ::
      n.accountGroups == if plan.accountGroups.None? then []
                         else Owned(nodes, n, plan.accountGroups.value(IDs(nodes)), MembershipOf(n.id))
  }

  method GroupsIf(nodes: seq<Account>, plan: Plan) returns (r: LoadResult)
    requires forall n | n in nodes :: n.groups == []
    modifies nodes`groups
    ensures r == GroupsStep(nodes, plan)
    ensures r == Done ==> GroupsLoaded(nodes, plan)
  {
    if plan.groups.None? {
      return Done;
    }
    r := LoadGroups(nodes, plan.groups.value);
  }

  method ProxyIf(nodes: seq<Account>, plan: Plan) returns (r: LoadResult)
    requires forall n | n in nodes :: n.proxy == null
    modifies nodes`proxy
    ensures r == ProxyStep(nodes, plan)
    ensures r == Done ==> ProxyLoaded(nodes, plan)
  {
    if plan.proxy.None? {
      return Done;
    }
    r := LoadProxy(nodes, plan.proxy.value);
  }

  method ParentIf(nodes: seq<Account>, plan: Plan) returns (r: LoadResult)
    requires forall n | n in nodes :: n.parent == null
    modifies nodes`parent
    ensures r == ParentStep(nodes, plan)
    ensures r == Done ==> ParentLoaded(nodes, plan)
  {
    if plan.parent.None? {
      return Done;
    }
    r := LoadParent(nodes, plan.parent.value);
  }

  method ChildrenIf(nodes: seq<Account>, plan: Plan) returns (r: LoadResult)
    requires forall n | n in nodes :: n.children == []
    modifies nodes`children
    ensures r == ChildrenStep(nodes, plan)
    ensures r == Done ==> ChildrenLoaded(nodes, plan)
  {
    if plan.children.None? {
      return Done;
    }
    r := LoadChildren(nodes, plan.children.value);
  }

  method UsageLogsIf(nodes: seq<Account>, plan: Plan) returns (r: LoadResult)
    requires forall n | n in nodes :: n.usageLogs == []
    modifies nodes`usageLogs
    ensures r == UsageLogsStep(nodes, plan)
    ensures r == Done ==> UsageLogsLoaded(nodes, plan)
  {
    if plan.usageLogs.None? {
      return Done;
    }
    r := LoadUsageLogs(nodes, plan.usageLogs.value);
  }

  method AccountGroupsIf(nodes: seq<Account>, plan: Plan) returns (r: LoadResult)
    requires forall n | n in nodes :: n.accountGroups == []
    modifies nodes`accountGroups
    ensures r == AccountGroupsStep(nodes, plan)
    ensures r == Done ==> AccountGroupsLoaded(nodes, plan)
  {
    if plan.accountGroups.None? {
      return Done;
    }
    r := LoadAccountGroups(nodes, plan.accountGroups.value);
  }

  method LoadSingleEdges(nodes: seq<Account>, plan: Plan) returns (r: LoadResult)
    requires forall n | n in nodes :: n.proxy == null && n.parent == null
    modifies nodes`proxy, nodes`parent
    ensures r == if ProxyStep(nodes, plan) != Done then ProxyStep(nodes, plan) else ParentStep(nodes, plan)
    ensures r == Done ==> ProxyLoaded(nodes, plan) && ParentLoaded(nodes, plan)
  {
    r := ProxyIf(nodes, plan);
    if r == Done {
      r := ParentIf(nodes, plan);
    }
  }

  /** The errors of the one-to-many loaders, in their order. */
  function ListStep(nodes: seq<Account>, plan: Plan): LoadResult {
    if ChildrenStep(nodes, plan) != Done then ChildrenStep(nodes, plan)
    else if UsageLogsStep(nodes, plan) != Done then UsageLogsStep(nodes, plan)
    else AccountGroupsStep(nodes, plan)
  }

  ghost predicate ListsLoaded(nodes: seq<Account>, plan: Plan)
    reads nodes`children, nodes`usageLogs, nodes`accountGroups
  {
    ChildrenLoaded(nodes, plan) && UsageLogsLoaded(nodes, plan) && AccountGroupsLoaded(nodes, plan)
  }

  method LoadListEdges(nodes: seq<Account>, plan: Plan) returns (r: LoadResult)
    requires forall n | n in nodes :: n.children == [] && n.usageLogs == [] && n.accountGroups == []
    modifies nodes`children, nodes`usageLogs, nodes`accountGroups
    ensures r == ListStep(nodes, plan)
    ensures r == Done ==> ListsLoaded(nodes, plan)
  {
    hide ChildrenLoaded, UsageLogsLoaded, AccountGroupsLoaded, ChildrenStep, UsageLogsStep, AccountGroupsStep;
    r := ChildrenIf(nodes, plan);
    if r != Done { return; }
    r := UsageLogsIf(nodes, plan);
    if r != Done { return; }
    r := AccountGroupsIf(nodes, plan);
  }

  method LoadEdges(nodes: seq<Account>, plan: Plan) returns (r: LoadResult)
    requires Untouched(nodes, plan)
    modifies nodes
    ensures r == Outcome(nodes, plan)
    ensures r == Done ==> GroupsLoaded(nodes, plan) && ProxyLoaded(nodes, plan) && ParentLoaded(nodes, plan)
    ensures r == Done ==> ListsLoaded(nodes, plan)
  {
    hide GroupsLoaded, ProxyLoaded, ParentLoaded, ListsLoaded;
    hide GroupsStep, ProxyStep, ParentStep, ChildrenStep, UsageLogsStep, AccountGroupsStep;
    r := GroupsIf(nodes, plan);
    if r != Done { return; }
    r := LoadSingleEdges(nodes, plan);
    if r != Done { return; }
    r := LoadListEdges(nodes, plan);
  }

  lemma AccessorsFromEdges(nodes: seq<Account>, plan: Plan)
    requires forall n | n in nodes :: n.loadedTypes == plan.Requests()
    requires GroupsLoaded(nodes, plan) && ProxyLoaded(nodes, plan) && ParentLoaded(nodes, plan)
    requires ListsLoaded(nodes, plan)
    ensures AccessorsAnswer(nodes, plan)
  {
  }

  /** The nodes a query creates, one per row. */
  ghost predicate Reads(nodes: seq<Account>, rows: seq<AccountRow>) {
    && |nodes| == |rows|
    && forall i | 0 <= i < |rows| :: AccountRow(nodes[i].id, nodes[i].proxyID, nodes[i].parentAccountID) == rows[i]
  }

  /** No query that was run failed. */
  ghost predicate EveryQueryAnswered(nodes: seq<Account>, plan: Plan) {
    && (plan.groups.Some? ==> plan.groups.value(IDs(nodes)).Rows?)
    && (plan.proxy.Some? && (exists n :: n in nodes && n.proxyID.Some?) ==>
          plan.proxy.value(KeysToFetch(ProxyKeys(nodes))).Rows?)
    && (plan.parent.Some? && (exists n :: n in nodes && n.parentAccountID.Some?) ==>
          plan.parent.value(KeysToFetch(ParentKeys(nodes))).Rows?)
    && (plan.children.Some? ==> plan.children.value(IDs(nodes)).Rows?)
    && (plan.usageLogs.Some? ==> plan.usageLogs.value(IDs(nodes)).Rows?)
    && (plan.accountGroups.Some? ==> plan.accountGroups.value(IDs(nodes)).Rows?)
  }

  lemma DoneMeansAnswered(nodes: seq<Account>, plan: Plan)
    requires Outcome(nodes, plan) == Done
    ensures EveryQueryAnswered(nodes, plan)
  {
    if plan.proxy.Some? {
      ProxyOutcome(nodes, plan.proxy.value);
    }
    if plan.parent.Some? {
      ParentOutcome(nodes, plan.parent.value);
    }
    hide KeysToFetch, LoadChildrenOutcome, LoadUsageLogsOutcome, LoadAccountGroupsOutcome, ToOneOutcome;
  }

  /** The first of the six loaders, in this order, that does not succeed decides. */
  lemma OutcomeMeaning(nodes: seq<Account>, plan: Plan)
    ensures var steps := [GroupsStep(nodes, plan), ProxyStep(nodes, plan), ParentStep(nodes, plan),
                          ChildrenStep(nodes, plan), UsageLogsStep(nodes, plan), AccountGroupsStep(nodes, plan)];
            && (Outcome(nodes, plan) == Done <==> forall r | r in steps :: r == Done)
            && forall i | 0 <= i < 6 && steps[i] != Done && (forall j | 0 <= j < i :: steps[j] == Done) ::
                 Outcome(nodes, plan) == steps[i]
  {
    var steps := [GroupsStep(nodes, plan), ProxyStep(nodes, plan), ParentStep(nodes, plan),
                  ChildrenStep(nodes, plan), UsageLogsStep(nodes, plan), AccountGroupsStep(nodes, plan)];
    hide GroupsStep, ProxyStep, ParentStep, ChildrenStep, UsageLogsStep, AccountGroupsStep;
    assert steps[0] in steps && steps[1] in steps && steps[2] in steps;
    assert steps[3] in steps && steps[4] in steps && steps[5] in steps;
  }

  /** What a to-one accessor says: not asked for; asked for, but no answered neighbour has the key; or one that has. */
  ghost predicate Says<T>(
    edge: Edge<T>, query: Option<seq<int> -> Answer<T>>, ids: seq<int>, key: Option<int>, idOf: T -> int) {
    match edge
    case NotLoaded => query.None?
    case NotFound =>
      && query.Some?
      && (ids != [] && query.value(ids).Rows? ==> forall e | e in query.value(ids).rows :: key != Some(idOf(e)))
    case Loaded(e) =>
      query.Some? && query.value(ids).Rows? && e in query.value(ids).rows && key == Some(idOf(e))
  }

  ghost predicate ToOneEdgesSay(nodes: seq<Account>, plan: Plan)
    reads nodes
  {
    forall n | n in nodes ::
      && Says(n.ProxyOrErr(), plan.proxy, KeysToFetch(ProxyKeys(nodes)), n.proxyID, ProxyID)
      && Says(n.ParentOrErr(), plan.parent, KeysToFetch(ParentKeys(nodes)), n.parentAccountID, AccountID)
  }

  lemma ToOneEdgesMeaning(nodes: seq<Account>, plan: Plan)
    requires ProxyAnswers(nodes, plan) && ParentAnswers(nodes, plan)
    ensures ToOneEdgesSay(nodes, plan)
  {
    forall n | n in nodes
      ensures Says(n.ProxyOrErr(), plan.proxy, KeysToFetch(ProxyKeys(nodes)), n.proxyID, ProxyID)
      ensures Says(n.ParentOrErr(), plan.parent, KeysToFetch(ParentKeys(nodes)), n.parentAccountID, AccountID)
    {
      var proxies, parents := KeysToFetch(ProxyKeys(nodes)), KeysToFetch(ParentKeys(nodes));
      hide KeysToFetch, Match, Account.ProxyOrErr, Account.ParentOrErr;
      if plan.proxy.Some? && proxies != [] && plan.proxy.value(proxies).Rows? {
        MatchMeaning(plan.proxy.value(proxies).rows, ProxyID, n.proxyID);
      }
      if plan.parent.Some? && parents != [] && plan.parent.value(parents).Rows? {
        MatchMeaning(plan.parent.value(parents).rows, AccountID, n.parentAccountID);
      }
    }
  }

  method SqlAll(answer: Answer<AccountRow>, plan: Plan) returns (r: LoadResult, nodes: seq<Account>)
    ensures fresh(nodes)
    ensures answer.QueryError? ==> r == QueryFailed
    ensures r != Done ==> nodes == []
    ensures answer.Rows? && answer.rows == [] ==> r == Done && nodes == []
    ensures r == Done ==> answer.Rows? && Reads(nodes, answer.rows) && Distinct(nodes)
    ensures r == Done && nodes != [] ==> Outcome(nodes, plan) == Done
    ensures r == Done ==> AccessorsAnswer(nodes, plan) && ToOneEdgesSay(nodes, plan)
    ensures r == Done && nodes != [] ==> EveryQueryAnswered(nodes, plan)
    ensures answer.Rows? && r != Done ==>
              exists lost: seq<Account> :: Reads(lost, answer.rows) && lost != [] && r == Outcome(lost, plan)
  {
    nodes := [];
    if answer.QueryError? {
      return QueryFailed, [];
    }
    for i := 0 to |answer.rows|
      invariant fresh(nodes)
      invariant Reads(nodes, answer.rows[..i])
      invariant Distinct(nodes)
      invariant Untouched(nodes, plan)
    {
      var row := answer.rows[i];
      var node := new Account(row.id, row.proxyID, row.parentAccountID, plan.Requests());
      nodes := nodes + [node];
    }
    if |nodes| == 0 {
      return Done, nodes;
    }
    r := LoadEdges(nodes, plan);
    if r != Done {
      ghost var lost := nodes;
      assert Reads(lost, answer.rows);
      return r, [];
    }
    AccessorsFromEdges(nodes, plan);
    DoneMeansAnswered(nodes, plan);
    ToOneEdgesMeaning(nodes, plan);
  }
}
