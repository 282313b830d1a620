/** The pending edge changes of an account mutation, and how far they stand for the calls that made them. */
module EdgeMutation {
  import opened Collections

  function Members(ids: seq<int>): set<int> {
    set id | id in ids
  }

  // ---------- a to-many edge: groups, children, usage_logs ----------

  datatype PendingMany = PendingMany(added: set<int>, removed: set<int>, cleared: bool)

  const NOTHING := PendingMany({}, {}, false)

  class ToManyEdge {
    var added: set<int>
    var removed: set<int>
    var cleared: bool

    constructor ()
      ensures Pending() == NOTHING
    {
      added, removed, cleared := {}, {}, false;
    }

    function Pending(): PendingMany
      reads this
    {
      PendingMany(added, removed, cleared)
    }

    /** AddGroupIDs */
    method AddIDs(ids: seq<int>)
      modifies this
      ensures Pending() == Recorded(old(Pending()), Add(ids))
    {
      for i := 0 to |ids|
        invariant Pending() == Recorded(old(Pending()), Add(ids[..i]))
      {
        added := added + {ids[i]};
        MembersGrow(ids, i);
      }
      assert ids[..|ids|] == ids;
    }

    /** RemoveGroupIDs: a removal also withdraws a pending addition. */
    method RemoveIDs(ids: seq<int>)
      modifies this
      ensures Pending() == Recorded(old(Pending()), Remove(ids))
    {
      for i := 0 to |ids|
        invariant Pending() == Recorded(old(Pending()), Remove(ids[..i]))
      {
        added := added - {ids[i]};
        removed := removed + {ids[i]};
        MembersGrow(ids, i);
      }
      assert ids[..|ids|] == ids;
    }

    /** ClearGroups: pending additions stay pending. */
    method Clear()
      modifies this
      ensures Pending() == Recorded(old(Pending()), ClearAll)
    {
      cleared := true;
    }
  }

  lemma MembersGrow(ids: seq<int>, i: nat)
    requires i < |ids|
    ensures Members(ids[..i + 1]) == Members(ids[..i]) + {ids[i]}
  {
    assert ids[..i + 1] == ids[..i] + [ids[i]];
  }

  /** A call on the update builder. */
  datatype ManyOp = Add(ids: seq<int>) | Remove(ids: seq<int>) | ClearAll

  /** What the mutation makes of a call. */
  function Recorded(p: PendingMany, op: ManyOp): PendingMany {
    match op
    case Add(ids) => p.(added := p.added + Members(ids))
    case Remove(ids) => p.(added := p.added - Members(ids), removed := p.removed + Members(ids))
    case ClearAll => p.(cleared := true)
  }

  function RecordedAll(ops: seq<ManyOp>): PendingMany {
    if ops == [] then NOTHING else Recorded(RecordedAll(ops[..|ops| - 1]), ops[|ops| - 1])
  }

  /** What a mutation does to the linked ids when it is saved: clears first, then adds. */
  function Deferred(p: PendingMany, linked: set<int>): set<int> {
    (if p.cleared then {} else linked - p.removed) + p.added
  }

  /** What the same call would do to the linked ids on the spot. */
  function Performed(linked: set<int>, op: ManyOp): set<int> {
    match op
    case Add(ids) => linked + Members(ids)
    case Remove(ids) => linked - Members(ids)
    case ClearAll => {}
  }

  function PerformedAll(linked: set<int>, ops: seq<ManyOp>): set<int> {
    if ops == [] then linked else Performed(PerformedAll(linked, ops[..|ops| - 1]), ops[|ops| - 1])
  }

  /** Ids whose addition was followed by a clear that did not withdraw it, and that no later call mentions. */
  function Stale(ops: seq<ManyOp>): set<int> {
    if ops == [] then {}
    else
      var before := ops[..|ops| - 1];
      match ops[|ops| - 1]
      case Add(ids) => Stale(before) - Members(ids)
      case Remove(ids) => Stale(before) - Members(ids)
      case ClearAll => RecordedAll(before).added
  }

  /** Saving the recorded changes does what the calls say one after the other, plus re-adding the stale ids. */
  lemma {:induction false} DeferredIsPerformedAndStale(linked: set<int>, ops: seq<ManyOp>)
    ensures Deferred(RecordedAll(ops), linked) == PerformedAll(linked, ops) + Stale(ops)
    ensures PerformedAll(linked, ops) !! Stale(ops)
    ensures Stale(ops) <= RecordedAll(ops).added
  {
    if ops != [] {
      DeferredIsPerformedAndStale(linked, ops[..|ops| - 1]);
    }
  }

  /** So the two agree, whatever is linked, exactly when nothing is stale. */
  lemma DeferredIsPerformedIff(linked: set<int>, ops: seq<ManyOp>)
    ensures Deferred(RecordedAll(ops), linked) == PerformedAll(linked, ops) <==> Stale(ops) == {}
  {
    DeferredIsPerformedAndStale(linked, ops);
    assert PerformedAll(linked, ops) + Stale(ops) - PerformedAll(linked, ops) == Stale(ops);
  }

  /** The smallest disagreement: adding a group and then clearing the groups leaves the added group linked. */
  lemma ClearDoesNotWithdrawAdd(linked: set<int>, id: int)
    ensures Deferred(RecordedAll([Add([id]), ClearAll]), linked) == {id}
    ensures PerformedAll(linked, [Add([id]), ClearAll]) == {}
  {
    var ops := [Add([id]), ClearAll];
    assert ops[..1] == [Add([id])] && [Add([id])][..0] == [];
    assert RecordedAll([Add([id])]) == Recorded(NOTHING, Add([id]));
  }

  predicate Mentions(op: ManyOp, id: int) {
    (op.Add? || op.Remove?) && id in op.ids
  }

  /** An id is stale exactly when some clear came while its addition was pending and no call mentions it afterwards. */
  lemma {:induction false} StaleMeaning(ops: seq<ManyOp>, id: int)
    ensures id in Stale(ops) <==> exists j :: StaleSince(ops, id, j)
  {
    hide RecordedAll, StaleSince;
    if ops == [] {
      NeverStale(id);
    } else {
      var n := |ops| - 1;
      StaleMeaning(ops[..n], id);
      StaleAtTheEnd(ops, id);
      forall j
        ensures StaleSince(ops, id, j) <==>
                (StaleSince(ops[..n], id, j) && !Mentions(ops[n], id)) || (j == n && StaleSince(ops, id, n))
      {
        StaleEarlier(ops, id, j);
      }
      if j :| StaleSince(ops[..n], id, j) {
        StillPending(ops[..n], id, j);
      }
    }
  }

  lemma NeverStale(id: int)
    ensures forall j :: !StaleSince([], id, j)
  {
  }

  lemma StaleAtTheEnd(ops: seq<ManyOp>, id: int)
    requires ops != []
    ensures var n := |ops| - 1;
            StaleSince(ops, id, n) <==> ops[n].ClearAll? && id in RecordedAll(ops[..n]).added
  {
  }

  lemma StaleEarlier(ops: seq<ManyOp>, id: int, j: int)
    requires ops != []
    ensures var n := |ops| - 1;
            j != n ==> (StaleSince(ops, id, j) <==> StaleSince(ops[..n], id, j) && !Mentions(ops[n], id))
    ensures !StaleSince(ops[..|ops| - 1], id, |ops| - 1)
  {
    hide RecordedAll;
    var n := |ops| - 1;
    if 0 <= j < n {
      assert ops[..n][..j] == ops[..j];
      assert forall k | 0 <= k < n :: ops[..n][k] == ops[k];
    }
  }

  ghost predicate StaleSince(ops: seq<ManyOp>, id: int, j: int) {
    && 0 <= j < |ops| && ops[j].ClearAll? && id in RecordedAll(ops[..j]).added
    && forall k | j < k < |ops| :: !Mentions(ops[k], id)
  }

  lemma {:induction false} StillPending(ops: seq<ManyOp>, id: int, j: int)
    requires StaleSince(ops, id, j)
    ensures ops != [] && id in RecordedAll(ops).added
    decreases |ops|
  {
    var n := |ops| - 1;
    if j < n {
      assert ops[..n][..j] == ops[..j];
      assert StaleSince(ops[..n], id, j);
      StillPending(ops[..n], id, j);
    }
  }

  // ---------- a to-one edge: proxy, parent ----------

  /** target: the linked id; fieldCleared: ClearProxyID was called; edgeCleared: ClearProxy was called. */
  datatype PendingOne = PendingOne(target: Option<int>, fieldCleared: bool, edgeCleared: bool)

  const UNTOUCHED := PendingOne(None, false, false)

  class ToOneEdge {
    var target: Option<int>
    var fieldCleared: bool
    var edgeCleared: bool

    constructor ()
      ensures Pending() == UNTOUCHED
    {
      target, fieldCleared, edgeCleared := None, false, false;
    }

    function Pending(): PendingOne
      reads this
    {
      PendingOne(target, fieldCleared, edgeCleared)
    }

    /** SetProxyID, SetParentID */
    method SetID(id: int)
      modifies this
      ensures Pending() == RecordedOne(old(Pending()), Set(id))
    {
      target := Some(id);
    }

    /** ClearProxyID, ClearParentAccountID */
    method ClearField()
      modifies this
      ensures Pending() == RecordedOne(old(Pending()), ClearColumn)
    {
      target := None;
      fieldCleared := true;
    }

    /** ClearProxy, ClearParent: the pending target stays. */
    method ClearEdge()
      modifies this
      ensures Pending() == RecordedOne(old(Pending()), ClearLink)
    {
      edgeCleared := true;
      fieldCleared := true;
    }
  }

  datatype OneOp = Set(id: int) | ClearColumn | ClearLink

  function RecordedOne(p: PendingOne, op: OneOp): PendingOne {
    match op
    case Set(id) => p.(target := Some(id))
    case ClearColumn => p.(target := None, fieldCleared := true)
    case ClearLink => p.(fieldCleared := true, edgeCleared := true)
  }

  function RecordedOneAll(ops: seq<OneOp>): PendingOne {
    if ops == [] then UNTOUCHED else RecordedOne(RecordedOneAll(ops[..|ops| - 1]), ops[|ops| - 1])
  }

  function DeferredOne(p: PendingOne, linked: Option<int>): Option<int> {
    if p.target.Some? then p.target else if p.fieldCleared || p.edgeCleared then None else linked
  }

  function PerformedOne(linked: Option<int>, ops: seq<OneOp>): Option<int> {
    if ops == [] then linked
    else match ops[|ops| - 1] case Set(id) => Some(id) case ClearColumn => None case ClearLink => None
  }

  /** A to-one link is saved as its calls say, except when they end in a clear of the edge with a target pending. */
  lemma {:induction false} DeferredOneIsPerformedIff(linked: Option<int>, ops: seq<OneOp>)
    ensures DeferredOne(RecordedOneAll(ops), linked) == PerformedOne(linked, ops) <==>
            !(ops != [] && ops[|ops| - 1].ClearLink? && RecordedOneAll(ops).target.Some?)
    ensures DeferredOne(RecordedOneAll(ops), linked) != PerformedOne(linked, ops) ==>
              DeferredOne(RecordedOneAll(ops), linked) == RecordedOneAll(ops).target
  {
    if ops != [] {
      DeferredOneIsPerformedIff(linked, ops[..|ops| - 1]);
    }
  }
}
