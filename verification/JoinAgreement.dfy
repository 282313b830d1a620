/** Two ways of loading one relation agree: a many-to-many edge directly or through its join rows,
  * and the parent/children edges read from their two ends.
  */
module JoinAgreement {
  import opened Collections
  import opened Entities
  import opened GroupLoading
  import opened ToOneIndex
  import opened ToOneLoading
  import opened ToManyLoading

  // ---------- the tables and what a query answers from them ----------

  /** The join of the through table with the visible groups, for the accounts asked about. */
  ghost predicate AnswersJoin(rows: seq<JoinRow>, asked: seq<int>, through: set<JoinRow>, visible: set<int>) {
    forall a, g :: JoinRow(a, g) in rows <==> JoinRow(a, g) in through && a in asked && g in visible
  }

  /** The through rows of the accounts asked about; (account_id, group_id) is their primary key. */
  ghost predicate AnswersMemberships(rows: seq<AccountGroup>, asked: seq<int>, through: set<JoinRow>) {
    && (forall a, g :: JoinRow(a, g) in through && a in asked <==>
          exists i :: 0 <= i < |rows| && rows[i].accountID == a && rows[i].groupID == g)
    && (forall i, j | 0 <= i < j < |rows| ::
        rows[i].accountID != rows[j].accountID || rows[i].groupID != rows[j].groupID)
  }

  /** The visible groups among the ids asked about, one node each. */
  ghost predicate AnswersGroups(answer: Answer<Group>, asked: seq<int>, visible: set<int>) {
    && answer.Rows?
    && (forall g :: g in asked && g in visible <==> exists n :: n in answer.rows && GroupID(n) == g)
  }

  /** The visible group a through row leads to. */
  function Hop(answer: Answer<Group>, m: AccountGroup): Option<int> {
    if answer.QueryError? then None
    else match Match(answer.rows, GroupID, Some(m.groupID)) case Some(g) => Some(g.id) case None => None
  }

  function HopIDs(answer: Answer<Group>, memberships: seq<AccountGroup>): seq<int> {
    if memberships == [] then []
    else
      var before := HopIDs(answer, memberships[..|memberships| - 1]);
      match Hop(answer, memberships[|memberships| - 1]) case Some(g) => before + [g] case None => before
  }

  lemma HopMeaning(answer: Answer<Group>, asked: seq<int>, visible: set<int>, m: AccountGroup)
    requires AnswersGroups(answer, asked, visible) && m.groupID in asked
    ensures Hop(answer, m) == if m.groupID in visible then Some(m.groupID) else None
  {
    MatchMeaning(answer.rows, GroupID, Some(m.groupID));
    assert m.groupID in asked && m.groupID in visible <==> exists n :: n in answer.rows && GroupID(n) == m.groupID;
  }

  /** Through rows of one account lead to pairwise different groups, exactly the visible ones it is joined with. */
  lemma {:induction false} HopIDsMeaning(
    answer: Answer<Group>, asked: seq<int>, visible: set<int>, memberships: seq<AccountGroup>, account: int, g: int)
    requires AnswersGroups(answer, asked, visible)
    requires forall m | m in memberships :: m.groupID in asked && m.accountID == account
    ensures g in HopIDs(answer, memberships) <==> g in visible && exists m :: m in memberships && m.groupID == g
  {
    if memberships != [] {
      var before, last := memberships[..|memberships| - 1], memberships[|memberships| - 1];
      assert memberships == before + [last];
      HopIDsMeaning(answer, asked, visible, before, account, g);
      HopMeaning(answer, asked, visible, last);
    }
  }

  lemma {:induction false} HopIDsDistinct(
    answer: Answer<Group>, asked: seq<int>, visible: set<int>, memberships: seq<AccountGroup>, account: int)
    requires AnswersGroups(answer, asked, visible)
    requires forall m | m in memberships :: m.groupID in asked && m.accountID == account
    requires forall i, j | 0 <= i < j < |memberships| :: memberships[i].groupID != memberships[j].groupID
    ensures Distinct(HopIDs(answer, memberships))
  {
    if memberships != [] {
      var before, last := memberships[..|memberships| - 1], memberships[|memberships| - 1];
      HopIDsDistinct(answer, asked, visible, before, account);
      HopIDsMeaning(answer, asked, visible, before, account, last.groupID);
      HopMeaning(answer, asked, visible, last);
    }
  }

  lemma {:induction false} DistinctBag<T>(s: seq<T>, x: T)
    requires Distinct(s)
    ensures multiset(s)[x] == if x in s then 1 else 0
  {
    if s != [] {
      var before := s[..|s| - 1];
      DistinctBag(before, x);
      assert s == before + [s[|s| - 1]];
    }
  }

  lemma SameMembersSameBag<T>(s: seq<T>, t: seq<T>)
    requires Distinct(s) && Distinct(t)
    requires forall x :: x in s <==> x in t
    ensures multiset(s) == multiset(t)
  {
    forall x
      ensures multiset(s)[x] == multiset(t)[x]
    {
      DistinctBag(s, x);
      DistinctBag(t, x);
    }
  }

  /** The two routes give an account the same groups, each once. */
  lemma TwoHopAgrees(
    nodes: seq<Account>, joinRows: seq<JoinRow>, memberships: seq<AccountGroup>, answer: Answer<Group>,
    through: set<JoinRow>, visible: set<int>, a: Account)
    requires a in nodes
    requires AnswersJoin(joinRows, IDs(nodes), through, visible)
    requires AnswersMemberships(memberships, IDs(nodes), through)
    requires AnswersGroups(answer, KeysToFetch(GroupKeys(memberships)), visible)
    ensures multiset(JoinedGroups(joinRows, a.id))
         == multiset(HopIDs(answer, Filter(memberships, MembershipOf(a.id))))
  {
    var mine := Filter(memberships, MembershipOf(a.id));
    var asked := KeysToFetch(GroupKeys(memberships));
    MembershipsOfOne(memberships, a.id, asked);
    HopIDsDistinct(answer, asked, visible, mine, a.id);
    JoinedGroupsMeaning(joinRows, a.id);
    InIDs(nodes, a);
    forall g
      ensures g in HopIDs(answer, mine) <==> g in JoinedGroups(joinRows, a.id)
    {
      HopIDsMeaning(answer, asked, visible, mine, a.id, g);
      MembershipExists(memberships, a.id, g);
      assert JoinRow(a.id, g) in joinRows <==> JoinRow(a.id, g) in through && a.id in IDs(nodes) && g in visible;
      assert JoinRow(a.id, g) in through && a.id in IDs(nodes) <==>
          exists i :: 0 <= i < |memberships| && memberships[i].accountID == a.id && memberships[i].groupID == g;
    }
    assert Distinct(JoinedGroups(joinRows, a.id));
    SameMembersSameBag(JoinedGroups(joinRows, a.id), HopIDs(answer, mine));
  }

  lemma InIDs(nodes: seq<Account>, a: Account)
    requires a in nodes
    ensures a.id in IDs(nodes)
  {
    var i :| 0 <= i < |nodes| && nodes[i] == a;
    assert IDs(nodes)[i] == a.id;
  }

  lemma MembershipExists(memberships: seq<AccountGroup>, account: int, g: int)
    ensures (exists m :: m in Filter(memberships, MembershipOf(account)) && m.groupID == g) <==>
            exists i :: 0 <= i < |memberships| && memberships[i].accountID == account && memberships[i].groupID == g
  {
    var mine := Filter(memberships, MembershipOf(account));
    if m :| m in mine && m.groupID == g {
      FilterMembers(memberships, MembershipOf(account), m);
    }
    if i :| 0 <= i < |memberships| && memberships[i].accountID == account && memberships[i].groupID == g {
      FilterMembers(memberships, MembershipOf(account), memberships[i]);
      assert memberships[i] in mine;
    }
  }

  lemma {:induction false} MembershipsOfOne(memberships: seq<AccountGroup>, account: int, asked: seq<int>)
    requires forall i, j | 0 <= i < j < |memberships| ::
               memberships[i].accountID != memberships[j].accountID || memberships[i].groupID != memberships[j].groupID
    requires asked == KeysToFetch(GroupKeys(memberships))
    ensures var mine := Filter(memberships, MembershipOf(account));
            && (forall m | m in mine :: m.groupID in asked && m.accountID == account)
            && (forall i, j | 0 <= i < j < |mine| :: mine[i].groupID != mine[j].groupID)
  {
    var mine := Filter(memberships, MembershipOf(account));
    forall m: AccountGroup | m in mine
      ensures m.groupID in asked && m.accountID == account
    {
      FilterMembers(memberships, MembershipOf(account), m);
      var i :| 0 <= i < |memberships| && memberships[i] == m;
      assert GroupKeys(memberships)[i] == Some(m.groupID);
      SomesMembers(GroupKeys(memberships), m.groupID);
      FirstSeenMembers(Somes(GroupKeys(memberships)), m.groupID);
    }
    OneAccountOneGroup(memberships, account);
  }

  lemma {:induction false} OneAccountOneGroup(memberships: seq<AccountGroup>, account: int)
    requires forall i, j | 0 <= i < j < |memberships| ::
               memberships[i].accountID != memberships[j].accountID || memberships[i].groupID != memberships[j].groupID
    ensures var mine := Filter(memberships, MembershipOf(account));
            forall i, j | 0 <= i < j < |mine| :: mine[i].groupID != mine[j].groupID
  {
    if memberships != [] {
      var before := memberships[..|memberships| - 1];
      OneAccountOneGroup(before, account);
      var last := memberships[|memberships| - 1];
      forall m: AccountGroup | m in Filter(before, MembershipOf(account))
        ensures m.accountID == account
        ensures last.accountID == account ==> m.groupID != last.groupID
      {
        FilterMembers(before, MembershipOf(account), m);
        var i :| 0 <= i < |before| && before[i] == m;
        assert memberships[i] == m;
      }
      assert forall i | 0 <= i < |Filter(before, MembershipOf(account))| ::
          Filter(before, MembershipOf(account))[i] in Filter(before, MembershipOf(account));
    }
  }

  /** The group ids an account shows through its loaded join rows. */
  function LoadedGroupIDs(memberships: seq<AccountGroup>): seq<int>
    reads memberships`group
  {
    if memberships == [] then []
    else
      var before := LoadedGroupIDs(memberships[..|memberships| - 1]);
      var g := memberships[|memberships| - 1].group;
      if g == null then before else before + [g.id]
  }

  lemma {:induction false} LoadedAreHops(memberships: seq<AccountGroup>, answer: Answer<Group>)
    requires forall m | m in memberships ::
               if Hop(answer, m).None? then m.group == null else m.group != null && Hop(answer, m) == Some(m.group.id)
    ensures LoadedGroupIDs(memberships) == HopIDs(answer, memberships)
  {
    if memberships != [] {
      var before, last := memberships[..|memberships| - 1], memberships[|memberships| - 1];
      assert memberships == before + [last];
      LoadedAreHops(before, answer);
    }
  }

  /** Loads the group of every join row, as the second query of the two-hop route does. */
  method SecondHop(memberships: seq<AccountGroup>, groupQuery: seq<int> -> Answer<Group>, ghost visible: set<int>)
    requires forall m | m in memberships :: m.group == null
    requires AnswersGroups(groupQuery(KeysToFetch(GroupKeys(memberships))), KeysToFetch(GroupKeys(memberships)),
                           visible)
    modifies memberships`group
    ensures var answer := groupQuery(KeysToFetch(GroupKeys(memberships)));
            forall m | m in memberships ::
              if Hop(answer, m).None? then m.group == null else m.group != null && Hop(answer, m) == Some(m.group.id)
  {
    ghost var ids := KeysToFetch(GroupKeys(memberships));
    forall n | n in groupQuery(ids).rows
      ensures GroupID(n) in ids
    {
      assert GroupID(n) in ids && GroupID(n) in visible <==>
          exists n' :: n' in groupQuery(ids).rows && GroupID(n') == GroupID(n);
    }
    NoStrays(groupQuery(ids).rows, GroupID, ids);
    forall m: AccountGroup | m in memberships
      ensures ids != []
    {
      MembershipsOfOneKey(memberships, m);
    }
    var r := LoadGroupOfMembership(memberships, groupQuery);
  }

  lemma MembershipsOfOneKey(memberships: seq<AccountGroup>, m: AccountGroup)
    requires m in memberships
    ensures m.groupID in KeysToFetch(GroupKeys(memberships))
  {
    var i :| 0 <= i < |memberships| && memberships[i] == m;
    assert GroupKeys(memberships)[i] == Some(m.groupID);
    SomesMembers(GroupKeys(memberships), m.groupID);
    FirstSeenMembers(Somes(GroupKeys(memberships)), m.groupID);
  }

  lemma NoStrays<T>(neighbors: seq<T>, idOf: T -> int, ids: seq<int>)
    requires forall n | n in neighbors :: idOf(n) in ids
    ensures Strays(neighbors, idOf, ids) == Done
  {
    FilterNone(neighbors, Unasked(idOf, ids));
  }

  /** Loads the groups edge, and the join rows with their groups: both as answered, so that the two edges show the same
    * groups of every account.
    */
  method LoadBothWays(
    nodes: seq<Account>, joinQuery: seq<int> -> Answer<JoinRow>, memberships: seq<AccountGroup>,
    groupQuery: seq<int> -> Answer<Group>, ghost through: set<JoinRow>, ghost visible: set<int>) returns (r: LoadResult)
    requires joinQuery(IDs(nodes)).Rows? && AnswersJoin(joinQuery(IDs(nodes)).rows, IDs(nodes), through, visible)
    requires AnswersMemberships(memberships, IDs(nodes), through)
    requires forall m | m in memberships :: m.group == null
    requires AnswersGroups(groupQuery(KeysToFetch(GroupKeys(memberships))), KeysToFetch(GroupKeys(memberships)),
                           visible)
    modifies nodes`groups, nodes`accountGroups, memberships`group
    ensures r == Done
    ensures HasJoinedGroups(nodes, joinQuery(IDs(nodes)).rows)
    ensures forall a | a in nodes ::
              a.accountGroups == if Owner(nodes, a.id) == a then Filter(memberships, MembershipOf(a.id)) else []
    ensures var answer := groupQuery(KeysToFetch(GroupKeys(memberships)));
            forall m | m in memberships ::
              if Hop(answer, m).None? then m.group == null else m.group != null && Hop(answer, m) == Some(m.group.id)
    ensures forall a | a in nodes :: multiset(GroupIDs(a.groups)) == multiset(LoadedGroupIDs(a.accountGroups))
  {
    ghost var joinRows := joinQuery(IDs(nodes)).rows;
    ghost var answer := groupQuery(KeysToFetch(GroupKeys(memberships)));
    NoStrangers(joinRows, IDs(nodes), through, visible);
    NoneDetached(nodes, memberships, through);
    hide AnswersJoin, AnswersMemberships, AnswersGroups, KeysToFetch, GroupKeys, IDs;
    hide Filter, LoadedGroupIDs, GroupIDs, Hop, Owner;
    SecondHop(memberships, groupQuery, visible);
    r := LoadGroups(nodes, joinQuery);
    r := LoadAccountGroups(nodes, _ => Rows(memberships));
    BothWays(nodes, joinRows, memberships, answer, through, visible);
  }

  lemma NoStrangers(rows: seq<JoinRow>, asked: seq<int>, through: set<JoinRow>, visible: set<int>)
    requires AnswersJoin(rows, asked, through, visible)
    ensures forall i | 0 <= i < |rows| :: rows[i].accountID in asked
  {
    assert forall i | 0 <= i < |rows| :: JoinRow(rows[i].accountID, rows[i].groupID) in rows;
  }

  lemma NoneDetached(nodes: seq<Account>, memberships: seq<AccountGroup>, through: set<JoinRow>)
    requires AnswersMemberships(memberships, IDs(nodes), through)
    ensures LoadAccountGroupsOutcome(nodes, memberships) == Done
  {
    forall m: AccountGroup | m in memberships
      ensures !Detached(nodes)(m)
    {
      var i :| 0 <= i < |memberships| && memberships[i] == m;
      assert JoinRow(m.accountID, m.groupID) in through && m.accountID in IDs(nodes) <==>
             exists j :: 0 <= j < |memberships|
                         && memberships[j].accountID == m.accountID && memberships[j].groupID == m.groupID;
    }
    FilterNone(memberships, Detached(nodes));
  }

  lemma BothWays(
    nodes: seq<Account>, joinRows: seq<JoinRow>, memberships: seq<AccountGroup>, answer: Answer<Group>,
    through: set<JoinRow>, visible: set<int>)
    requires AnswersJoin(joinRows, IDs(nodes), through, visible)
    requires AnswersMemberships(memberships, IDs(nodes), through)
    requires AnswersGroups(answer, KeysToFetch(GroupKeys(memberships)), visible)
    requires forall m | m in memberships ::
               if Hop(answer, m).None? then m.group == null else m.group != null && Hop(answer, m) == Some(m.group.id)
    requires HasJoinedGroups(nodes, joinRows)
    requires forall a | a in nodes ::
               a.accountGroups == if Owner(nodes, a.id) == a then Filter(memberships, MembershipOf(a.id)) else []
    ensures forall a | a in nodes :: multiset(GroupIDs(a.groups)) == multiset(LoadedGroupIDs(a.accountGroups))
  {
    forall a | a in nodes
      ensures multiset(GroupIDs(a.groups)) == multiset(LoadedGroupIDs(a.accountGroups))
    {
      if Owner(nodes, a.id) == a {
        TwoHopAgrees(nodes, joinRows, memberships, answer, through, visible, a);
        forall m: AccountGroup | m in a.accountGroups
          ensures m in memberships
        {
          FilterMembers(memberships, MembershipOf(a.id), m);
        }
        LoadedAreHops(a.accountGroups, answer);
      }
    }
  }

  // ---------- parents and children ----------

  /** The accounts whose id was asked about, one node per row of the table. */
  ghost predicate AnswersByID(answer: Answer<Account>, asked: seq<int>, table: map<int, Option<int>>) {
    && answer.Rows?
    && (forall x :: x in asked && x in table <==> exists n :: n in answer.rows && AccountID(n) == x)
  }

  /** The accounts whose parent is among the ids asked about. */
  ghost predicate AnswersByParent(answer: Answer<Account>, asked: seq<int>, table: map<int, Option<int>>) {
    && answer.Rows?
    && (forall n | n in answer.rows :: n.id in table && n.parentAccountID == table[n.id])
    && (forall x :: x in table && table[x].Some? && table[x].value in asked <==>
                    exists n :: n in answer.rows && AccountID(n) == x)
  }

  ghost predicate ListsChild(p: Account, id: int)
    reads p`children
  {
    exists n :: n in p.children && AccountID(n) == id
  }

  predicate HasParent(c: Account, id: int)
    reads c`parent
  {
    c.parent != null && c.parent.id == id
  }

  /** c is listed among the children read for p exactly when p's id is the id of the parent read for c. */
  lemma ParentChildDuality(
    nodes: seq<Account>, table: map<int, Option<int>>,
    parentQuery: seq<int> -> Answer<Account>, children: Answer<Account>, c: Account, p: Account)
    requires c in nodes && p in nodes
    requires forall n | n in nodes :: n.id in table && n.parentAccountID == table[n.id]
    requires AnswersByID(parentQuery(KeysToFetch(ParentKeys(nodes))), KeysToFetch(ParentKeys(nodes)), table)
    requires AnswersByParent(children, IDs(nodes), table)
    ensures (exists n :: n in Filter(children.rows, ChildOf(p.id)) && AccountID(n) == c.id) <==>
            match Resolved(ParentKeys(nodes), parentQuery, AccountID, c.parentAccountID)
            case Some(q) => q.id == p.id
            case None => false
  {
    var keys := ParentKeys(nodes);
    var asked := KeysToFetch(keys);
    var parent := Resolved(keys, parentQuery, AccountID, c.parentAccountID);
    ResolvedParent(nodes, table, parentQuery, c);
    if n :| n in Filter(children.rows, ChildOf(p.id)) && AccountID(n) == c.id {
      FilterMembers(children.rows, ChildOf(p.id), n);
      assert c.parentAccountID == Some(p.id);
    }
    if parent.Some? && parent.value.id == p.id {
      InIDs(nodes, p);
      assert c.id in table && table[c.id] == Some(p.id);
      var n :| n in children.rows && AccountID(n) == c.id;
      FilterMembers(children.rows, ChildOf(p.id), n);
    }
  }

  lemma ResolvedParent(
    nodes: seq<Account>, table: map<int, Option<int>>, parentQuery: seq<int> -> Answer<Account>, c: Account)
    requires c in nodes
    requires AnswersByID(parentQuery(KeysToFetch(ParentKeys(nodes))), KeysToFetch(ParentKeys(nodes)), table)
    ensures match Resolved(ParentKeys(nodes), parentQuery, AccountID, c.parentAccountID)
            case Some(q) => c.parentAccountID == Some(q.id)
            case None => c.parentAccountID.Some? ==> c.parentAccountID.value !in table
  {
    var keys := ParentKeys(nodes);
    var asked := KeysToFetch(keys);
    MatchMeaning(parentQuery(asked).rows, AccountID, c.parentAccountID);
    if c.parentAccountID.Some? {
      var i :| 0 <= i < |nodes| && nodes[i] == c;
      assert keys[i] == c.parentAccountID;
      SomesMembers(keys, c.parentAccountID.value);
      FirstSeenMembers(Somes(keys), c.parentAccountID.value);
      assert c.parentAccountID.value in asked && c.parentAccountID.value in table <==>
          exists n :: n in parentQuery(asked).rows && AccountID(n) == c.parentAccountID.value;
    }
  }

  lemma FamilyOutcomes(
    nodes: seq<Account>, table: map<int, Option<int>>,
    parentQuery: seq<int> -> Answer<Account>, children: Answer<Account>)
    requires AnswersByID(parentQuery(KeysToFetch(ParentKeys(nodes))), KeysToFetch(ParentKeys(nodes)), table)
    requires AnswersByParent(children, IDs(nodes), table)
    ensures ToOneOutcome(ParentKeys(nodes), parentQuery, AccountID) == Done
    ensures LoadChildrenOutcome(nodes, children.rows) == Done
  {
    var ids := KeysToFetch(ParentKeys(nodes));
    forall n | n in parentQuery(ids).rows
      ensures AccountID(n) in ids
    {
      assert AccountID(n) in ids && AccountID(n) in table <==>
          exists n' :: n' in parentQuery(ids).rows && AccountID(n') == AccountID(n);
    }
    NoStrays(parentQuery(ids).rows, AccountID, ids);
    forall n: Account | n in children.rows
      ensures !Orphan(nodes)(n)
    {
      assert AccountID(n) in table && table[AccountID(n)].Some? && table[AccountID(n)].value in IDs(nodes) <==>
          exists n' :: n' in children.rows && AccountID(n') == AccountID(n);
    }
    FilterNone(children.rows, Orphan(nodes));
  }

  lemma SelfOwner(nodes: seq<Account>, p: Account)
    requires p in nodes && Distinct(IDs(nodes))
    ensures Owner(nodes, p.id) == p
  {
    var i :| 0 <= i < |nodes| && nodes[i] == p;
    DistinctOwners(nodes, i);
  }

  lemma PairDual(
    nodes: seq<Account>, table: map<int, Option<int>>,
    parentQuery: seq<int> -> Answer<Account>, children: Answer<Account>, c: Account, p: Account)
    requires c in nodes && p in nodes
    requires forall n | n in nodes :: n.id in table && n.parentAccountID == table[n.id]
    requires AnswersByID(parentQuery(KeysToFetch(ParentKeys(nodes))), KeysToFetch(ParentKeys(nodes)), table)
    requires AnswersByParent(children, IDs(nodes), table)
    requires c.parent == OrElse(Resolved(ParentKeys(nodes), parentQuery, AccountID, c.parentAccountID), null)
    requires p.children == Filter(children.rows, ChildOf(p.id))
    ensures ListsChild(p, c.id) <==> HasParent(c, p.id)
  {
    hide AnswersByID, AnswersByParent, KeysToFetch, IDs, ParentKeys, Resolved, ChildOf, Filter;
    ParentChildDuality(nodes, table, parentQuery, children, c, p);
  }

  lemma FamilyDual(
    nodes: seq<Account>, table: map<int, Option<int>>,
    parentQuery: seq<int> -> Answer<Account>, children: Answer<Account>)
    requires Distinct(IDs(nodes))
    requires forall n | n in nodes :: n.id in table && n.parentAccountID == table[n.id]
    requires AnswersByID(parentQuery(KeysToFetch(ParentKeys(nodes))), KeysToFetch(ParentKeys(nodes)), table)
    requires AnswersByParent(children, IDs(nodes), table)
    requires forall c | c in nodes ::
               c.parent == OrElse(Resolved(ParentKeys(nodes), parentQuery, AccountID, c.parentAccountID), null)
    requires forall p | p in nodes ::
               p.children == if Owner(nodes, p.id) == p then Filter(children.rows, ChildOf(p.id)) else []
    ensures forall p | p in nodes :: p.children == Filter(children.rows, ChildOf(p.id))
    ensures forall c, p | c in nodes && p in nodes ::
              ListsChild(p, c.id) <==> HasParent(c, p.id)
  {
    forall p | p in nodes
      ensures p.children == Filter(children.rows, ChildOf(p.id))
    {
      SelfOwner(nodes, p);
    }
    forall c, p | c in nodes && p in nodes
      ensures ListsChild(p, c.id) <==> HasParent(c, p.id)
    {
      PairDual(nodes, table, parentQuery, children, c, p);
    }
  }

  /** Loads both edges, each as answered; for distinct ids, being a child and having the parent are then one fact. */
  method LoadFamily(
    nodes: seq<Account>, ghost table: map<int, Option<int>>,
    parentQuery: seq<int> -> Answer<Account>, childQuery: seq<int> -> Answer<Account>) returns (r: LoadResult)
    requires Distinct(IDs(nodes))
    requires forall n | n in nodes :: n.id in table && n.parentAccountID == table[n.id] && n.parent == null
    requires AnswersByID(parentQuery(KeysToFetch(ParentKeys(nodes))), KeysToFetch(ParentKeys(nodes)), table)
    requires AnswersByParent(childQuery(IDs(nodes)), IDs(nodes), table)
    modifies nodes`parent, nodes`children
    ensures r == Done
    ensures forall c | c in nodes ::
              c.parent == OrElse(Resolved(ParentKeys(nodes), parentQuery, AccountID, c.parentAccountID), null)
    ensures forall p | p in nodes :: p.children == Filter(childQuery(IDs(nodes)).rows, ChildOf(p.id))
    ensures forall c, p | c in nodes && p in nodes ::
              ListsChild(p, c.id) <==> HasParent(c, p.id)
  {
    FamilyOutcomes(nodes, table, parentQuery, childQuery(IDs(nodes)));
    hide AnswersByID, AnswersByParent, Distinct, Filter, ListsChild, HasParent;
    r := LoadParent(nodes, parentQuery);
    r := LoadChildren(nodes, childQuery);
    FamilyDual(nodes, table, parentQuery, childQuery(IDs(nodes)));
  }
}
