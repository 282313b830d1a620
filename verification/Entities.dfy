/** The entities that eager loading connects, and the answers a query can give.
  *
  * Column values are constant once a row has been read; the edge fields are what
  * the loaders write.
  */
module Entities {
  import opened Collections

  class Group {
    const id: int

    constructor (id: int)
      ensures this.id == id
    {
      this.id := id;
    }
  }

  class Proxy {
    const id: int

    constructor (id: int)
      ensures this.id == id
    {
      this.id := id;
    }
  }

  /** What reading an edge gives: the value, "was asked for but is not there", or "was not asked for". */
  datatype Edge<+T> = Loaded(value: T) | NotFound | NotLoaded

  /** A row of the through table account_groups; it has no id of its own. */
  class AccountGroup {
    const accountID: int
    const groupID: int
    var group: Group?

    constructor (accountID: int, groupID: int)
      ensures this.accountID == accountID && this.groupID == groupID
      ensures group == null
    {
      this.accountID, this.groupID := accountID, groupID;
      group := null;
    }
  }

  class UsageLog {
    const id: int
    const accountID: int

    constructor (id: int, accountID: int)
      ensures this.id == id && this.accountID == accountID
    {
      this.id, this.accountID := id, accountID;
    }
  }

  /** Which edges a query eager-loads. */
  datatype Requested = Requested(
    groups: bool, proxy: bool, parent: bool, children: bool, usageLogs: bool, accountGroups: bool)

  class Account {
    const id: int
    const proxyID: Option<int>
    const parentAccountID: Option<int>
    const loadedTypes: Requested
    var groups: seq<Group>
    var proxy: Proxy?
    var parent: Account?
    var children: seq<Account>
    var usageLogs: seq<UsageLog>
    var accountGroups: seq<AccountGroup>

    constructor (id: int, proxyID: Option<int>, parentAccountID: Option<int>, loadedTypes: Requested)
      ensures this.id == id && this.proxyID == proxyID && this.parentAccountID == parentAccountID
      ensures this.loadedTypes == loadedTypes
      ensures groups == [] && proxy == null && parent == null
      ensures children == [] && usageLogs == [] && accountGroups == []
    {
      this.id, this.proxyID, this.parentAccountID := id, proxyID, parentAccountID;
      this.loadedTypes := loadedTypes;
      groups, proxy, parent, children, usageLogs, accountGroups := [], null, null, [], [], [];
    }

    function GroupsOrErr(): Edge<seq<Group>>
      reads this
    {
      if loadedTypes.groups then Loaded(groups) else NotLoaded
    }

    function ProxyOrErr(): Edge<Proxy>
      reads this
    {
      if proxy != null then Loaded(proxy) else if loadedTypes.proxy then NotFound else NotLoaded
    }

    function ParentOrErr(): Edge<Account>
      reads this
    {
      if parent != null then Loaded(parent) else if loadedTypes.parent then NotFound else NotLoaded
    }

    function ChildrenOrErr(): Edge<seq<Account>>
      reads this
    {
      if loadedTypes.children then Loaded(children) else NotLoaded
    }

    function UsageLogsOrErr(): Edge<seq<UsageLog>>
      reads this
    {
      if loadedTypes.usageLogs then Loaded(usageLogs) else NotLoaded
    }

    function AccountGroupsOrErr(): Edge<seq<AccountGroup>>
      reads this
    {
      if loadedTypes.accountGroups then Loaded(accountGroups) else NotLoaded
    }
  }

  /** The outcome of running a neighbour query. */
  datatype Answer<+T> = Rows(rows: seq<T>) | QueryError

  /** The outcome of a loader. `NilDereference` is a run-time panic. */
  datatype LoadResult =
    | Done
    | QueryFailed
    | UnexpectedNode(id: int)
    | NilForeignKey
    | NilDereference

  function IDs(nodes: seq<Account>): (ids: seq<int>)
    ensures |ids| == |nodes|
    ensures forall i | 0 <= i < |nodes| :: ids[i] == nodes[i].id
  {
    seq(|nodes|, i requires 0 <= i < |nodes| => nodes[i].id)
  }

  /** The index a Go map built by `m[node.ID] = node` ends with: of several nodes with one id the last stays. */
  function ByID(nodes: seq<Account>): map<int, Account> {
    if nodes == [] then map[]
    else ByID(nodes[..|nodes| - 1])[nodes[|nodes| - 1].id := nodes[|nodes| - 1]]
  }

  /** A missing key of a Go map of pointers reads as nil. */
  function Owner(nodes: seq<Account>, id: int): Account? {
    if id in ByID(nodes) then ByID(nodes)[id] else null
  }

  lemma {:induction false} ByIDKeys(nodes: seq<Account>, id: int)
    ensures id in ByID(nodes) <==> id in IDs(nodes)
    ensures id in ByID(nodes) ==> ByID(nodes)[id] in nodes && ByID(nodes)[id].id == id
  {
    if nodes != [] {
      var before := nodes[..|nodes| - 1];
      ByIDKeys(before, id);
      assert IDs(nodes) == IDs(before) + [nodes[|nodes| - 1].id];
      assert nodes == before + [nodes[|nodes| - 1]];
    }
  }

  /** When ids are distinct, every node is its own owner. */
  lemma {:induction false} DistinctOwners(nodes: seq<Account>, i: nat)
    requires Distinct(IDs(nodes))
    requires i < |nodes|
    ensures Owner(nodes, nodes[i].id) == nodes[i]
  {
    var before := nodes[..|nodes| - 1];
    var all := IDs(nodes);
    assert forall k | 0 <= k < |before| :: IDs(before)[k] == all[k];
    if i < |before| {
      DistinctOwners(before, i);
      assert all[i] != all[|nodes| - 1];
    }
  }
}
