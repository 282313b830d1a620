/** What the edge changes of an update do to the links, and how that compares with the calls that asked for them. */
module EdgeUpdate {
  import opened Collections
  import opened EdgeMutation
  import opened UpdateSpec

  predicate ToOne(e: EdgeName) {
    e == Proxy || e == Parent
  }

  datatype EdgeChanges = EdgeChanges(clear: seq<EdgeChange>, add: seq<EdgeChange>)

  // ---------- what changes mean ----------

  function AfterClears(changes: seq<EdgeChange>, e: EdgeName, linked: set<int>): set<int> {
    if changes == [] then linked
    else
      var before := AfterClears(changes[..|changes| - 1], e, linked);
      var change := changes[|changes| - 1];
      if change.edge != e then before else if change.nodes == {} then {} else before - change.nodes
  }

  /** Adding to a to-one edge overwrites its foreign key. */
  function AfterAdds(changes: seq<EdgeChange>, e: EdgeName, linked: set<int>): set<int> {
    if changes == [] then linked
    else
      var before := AfterAdds(changes[..|changes| - 1], e, linked);
      var change := changes[|changes| - 1];
      if change.edge != e then before else if ToOne(e) then change.nodes else before + change.nodes
  }

  /** The ids linked to an account over edge e after an update that saw `linked`: all clears come before all adds. This
    * looks at one edge at a time and at updates that are not refused; UpdateTransaction says which those are, and that
    * the tables end as said here, also where two edges share a column.
    */
  function Effect(changes: EdgeChanges, e: EdgeName, linked: set<int>): set<int> {
    AfterAdds(changes.add, e, AfterClears(changes.clear, e, linked))
  }

  lemma {:induction false} AfterClearsConcat(a: seq<EdgeChange>, b: seq<EdgeChange>, e: EdgeName, linked: set<int>)
    ensures AfterClears(a + b, e, linked) == AfterClears(b, e, AfterClears(a, e, linked))
  {
    if b == [] {
      assert a + b == a;
    } else {
      AfterClearsConcat(a, b[..|b| - 1], e, linked);
      assert (a + b)[..|a + b| - 1] == a + b[..|b| - 1];
    }
  }

  lemma {:induction false} AfterAddsConcat(a: seq<EdgeChange>, b: seq<EdgeChange>, e: EdgeName, linked: set<int>)
    ensures AfterAdds(a + b, e, linked) == AfterAdds(b, e, AfterAdds(a, e, linked))
  {
    if b == [] {
      assert a + b == a;
    } else {
      AfterAddsConcat(a, b[..|b| - 1], e, linked);
      assert (a + b)[..|a + b| - 1] == a + b[..|b| - 1];
    }
  }

  /** changes do not touch edge e. */
  ghost predicate Silent(changes: EdgeChanges, e: EdgeName) {
    forall linked :: AfterClears(changes.clear, e, linked) == linked && AfterAdds(changes.add, e, linked) == linked
  }

  function Then(a: EdgeChanges, b: EdgeChanges): EdgeChanges {
    EdgeChanges(a.clear + b.clear, a.add + b.add)
  }

  /** Looking at one edge, what changes do to it is not disturbed by changes to other edges, before or after. */
  lemma ThenSilent(a: EdgeChanges, b: EdgeChanges, e: EdgeName)
    ensures Silent(a, e) ==> forall linked :: Effect(Then(a, b), e, linked) == Effect(b, e, linked)
    ensures Silent(b, e) ==> forall linked :: Effect(Then(a, b), e, linked) == Effect(a, e, linked)
    ensures Silent(a, e) && Silent(b, e) ==> Silent(Then(a, b), e)
  {
    forall linked
      ensures AfterClears(a.clear + b.clear, e, linked) == AfterClears(b.clear, e, AfterClears(a.clear, e, linked))
      ensures AfterAdds(a.add + b.add, e, linked) == AfterAdds(b.add, e, AfterAdds(a.add, e, linked))
    {
      AfterClearsConcat(a.clear, b.clear, e, linked);
      AfterAddsConcat(a.add, b.add, e, linked);
    }
  }

  // ---------- what is wanted ----------

  /** The pending changes of all five edges. */
  datatype Pendings = Pendings(
    groups: PendingMany, proxy: PendingOne, parent: PendingOne, children: PendingMany, usageLogs: PendingMany)

  function AsSet(target: Option<int>): set<int> {
    match target case Some(id) => {id} case None => {}
  }

  function WantedOne(p: PendingOne, linked: set<int>): set<int> {
    if p.target.Some? then AsSet(p.target) else if p.fieldCleared || p.edgeCleared then {} else linked
  }

  /** What saving the pending changes should leave linked. */
  function Wanted(p: Pendings, e: EdgeName, linked: set<int>): set<int> {
    match e
    case Groups => Deferred(p.groups, linked)
    case Proxy => WantedOne(p.proxy, linked)
    case Parent => WantedOne(p.parent, linked)
    case Children => Deferred(p.children, linked)
    case UsageLogs => Deferred(p.usageLogs, linked)
  }

  // ---------- what is sent ----------

  /** The changes for a to-many edge: clear all, or else remove if there is something to remove; then add likewise. */
  function ManyChanges(e: EdgeName, p: PendingMany): EdgeChanges {
    EdgeChanges(if p.cleared then [EdgeChange(e, {})] else if p.removed != {} then [EdgeChange(e, p.removed)] else [],
                if p.added != {} then [EdgeChange(e, p.added)] else [])
  }

  function OneChanges(e: EdgeName, p: PendingOne): EdgeChanges {
    EdgeChanges(if p.fieldCleared || p.edgeCleared then [EdgeChange(e, {})] else [],
                if p.target.Some? then [EdgeChange(e, {p.target.value})] else [])
  }

  function AllChanges(p: Pendings): EdgeChanges {
    Then(Then(Then(Then(ManyChanges(Groups, p.groups), OneChanges(Proxy, p.proxy)), OneChanges(Parent, p.parent)),
              ManyChanges(Children, p.children)), ManyChanges(UsageLogs, p.usageLogs))
  }

  /** changes are about edge e and do to it what is pending. */
  ghost predicate CarriesMany(changes: EdgeChanges, e: EdgeName, p: PendingMany) {
    && (forall linked :: Effect(changes, e, linked) == Deferred(p, linked))
    && forall o | o != e :: Silent(changes, o)
  }

  ghost predicate CarriesOne(changes: EdgeChanges, e: EdgeName, p: PendingOne) {
    && (forall linked :: Effect(changes, e, linked) == WantedOne(p, linked))
    && forall o | o != e :: Silent(changes, o)
  }

  lemma ManyChangesCarry(e: EdgeName, p: PendingMany)
    requires !ToOne(e)
    ensures CarriesMany(ManyChanges(e, p), e, p)
  {
    var changes := ManyChanges(e, p);
    forall o, linked
      ensures AfterClears(changes.clear, o, linked) ==
              if o != e then linked else if p.cleared then {} else linked - p.removed
      ensures AfterAdds(changes.add, o, linked) == if o != e then linked else linked + p.added
    {
    }
  }

  lemma OneChangesCarry(e: EdgeName, p: PendingOne)
    requires ToOne(e)
    ensures CarriesOne(OneChanges(e, p), e, p)
  {
    var changes := OneChanges(e, p);
    forall o, linked
      ensures AfterClears(changes.clear, o, linked) ==
              if o == e && (p.fieldCleared || p.edgeCleared) then {} else linked
      ensures AfterAdds(changes.add, o, linked) == if o == e && p.target.Some? then {p.target.value} else linked
    {
    }
  }

  /** Why a removal is only sent when there is something to remove: sent without nodes it would unlink everything. */
  lemma EmptyRemovalWouldClear(e: EdgeName, linked: set<int>)
    ensures Effect(EdgeChanges([EdgeChange(e, {})], []), e, linked) == {}
    ensures Deferred(NOTHING, linked) == linked
    ensures ManyChanges(e, NOTHING) == EdgeChanges([], [])
  {
  }

  /** changes do to every edge what is pending for it. */
  ghost predicate Carries(changes: EdgeChanges, p: Pendings) {
    forall e, linked :: Effect(changes, e, linked) == Wanted(p, e, linked)
  }

  /** The specs of the five edges together do to each edge, seen by itself, what is pending for it. */
  lemma AllChangesCarry(p: Pendings)
    ensures Carries(AllChanges(p), p)
  {
    ManyChangesCarry(Groups, p.groups);
    OneChangesCarry(Proxy, p.proxy);
    OneChangesCarry(Parent, p.parent);
    ManyChangesCarry(Children, p.children);
    ManyChangesCarry(UsageLogs, p.usageLogs);
    AllFive(p, ManyChanges(Groups, p.groups), OneChanges(Proxy, p.proxy), OneChanges(Parent, p.parent),
            ManyChanges(Children, p.children), ManyChanges(UsageLogs, p.usageLogs));
  }

  lemma AllFive(p: Pendings, g: EdgeChanges, x: EdgeChanges, a: EdgeChanges, c: EdgeChanges, u: EdgeChanges)
    requires CarriesMany(g, Groups, p.groups) && CarriesOne(x, Proxy, p.proxy) && CarriesOne(a, Parent, p.parent)
    requires CarriesMany(c, Children, p.children) && CarriesMany(u, UsageLogs, p.usageLogs)
    ensures Carries(Then(Then(Then(Then(g, x), a), c), u), p)
  {
    hide Effect, Silent, Then, Deferred, WantedOne;
    var gx := Then(g, x);
    var gxa := Then(gx, a);
    var gxac := Then(gxa, c);
    forall e, linked
      ensures Effect(Then(gxac, u), e, linked) == Wanted(p, e, linked)
    {
      ThenSilent(g, x, e);
      ThenSilent(gx, a, e);
      ThenSilent(gxa, c, e);
      ThenSilent(gxac, u, e);
    }
  }

  // ---------- sequences of calls ----------

  /** Any sequence of group calls on a fresh mutation is saved as if performed call by call, iff nothing is stale. */
  lemma GroupCallsTakeEffect(p: Pendings, ops: seq<ManyOp>, linked: set<int>)
    requires p.groups == RecordedAll(ops)
    ensures Effect(AllChanges(p), Groups, linked) == PerformedAll(linked, ops) <==> Stale(ops) == {}
    ensures Effect(AllChanges(p), Groups, linked) == PerformedAll(linked, ops) + Stale(ops)
  {
    hide AllChanges, Effect;
    AllChangesCarry(p);
    DeferredIsPerformedAndStale(linked, ops);
    DeferredIsPerformedIff(linked, ops);
    assert Effect(AllChanges(p), Groups, linked) == Wanted(p, Groups, linked);
  }

  function PendingOf(p: Pendings, e: EdgeName): PendingOne
    requires ToOne(e)
  {
    if e == Proxy then p.proxy else p.parent
  }

  /** The calls end in a clear of the edge while a target is pending. */
  predicate ClearIsLost(ops: seq<OneOp>) {
    ops != [] && ops[|ops| - 1].ClearLink? && RecordedOneAll(ops).target.Some?
  }

  /** The same for proxy and parent: call by call, iff no final clear is lost to a pending target. */
  lemma ToOneCallsTakeEffect(p: Pendings, e: EdgeName, ops: seq<OneOp>, linked: Option<int>)
    requires ToOne(e) && PendingOf(p, e) == RecordedOneAll(ops)
    ensures Effect(AllChanges(p), e, AsSet(linked)) == AsSet(PerformedOne(linked, ops)) <==> !ClearIsLost(ops)
    ensures ClearIsLost(ops) ==> Effect(AllChanges(p), e, AsSet(linked)) == AsSet(RecordedOneAll(ops).target)
  {
    hide AllChanges, Effect;
    AllChangesCarry(p);
    DeferredOneIsPerformedIff(linked, ops);
    WantedOneIsDeferred(PendingOf(p, e), linked);
    assert Effect(AllChanges(p), e, AsSet(linked)) == Wanted(p, e, AsSet(linked));
    AsSetInjective(DeferredOne(RecordedOneAll(ops), linked), PerformedOne(linked, ops));
  }

  /** On a link that is there or not, what is wanted of a to-one edge is its deferred outcome. */
  lemma WantedOneIsDeferred(p: PendingOne, linked: Option<int>)
    ensures WantedOne(p, AsSet(linked)) == AsSet(DeferredOne(p, linked))
  {
  }

  lemma AsSetInjective(a: Option<int>, b: Option<int>)
    ensures AsSet(a) == AsSet(b) <==> a == b
  {
    if AsSet(a) == AsSet(b) && a.Some? {
      assert a.value in AsSet(b);
    }
    if AsSet(a) == AsSet(b) && b.Some? {
      assert b.value in AsSet(a);
    }
  }
}
