/** AccountUpdate and AccountUpdateOne: two generated bodies, the changes each sends, and that they are the same. */
module AccountUpdate {
  import opened Collections
  import opened AccountSchema
  import opened AccountCodec
  import opened AccountCreation
  import FieldMutation
  import opened EdgeMutation
  import opened UpdateSpec
  import opened EdgeUpdate

  class AccountMutation {
    const id: Option<int>
    const fields: FieldMutation.FieldMutation
    const groups: ToManyEdge
    const proxy: ToOneEdge
    const parent: ToOneEdge
    const children: ToManyEdge
    const usageLogs: ToManyEdge
    var done: bool

    constructor (id: Option<int>)
      ensures this.id == id && !done
      ensures fresh(fields) && fresh(groups) && fresh(proxy) && fresh(parent) && fresh(children) && fresh(usageLogs)
      ensures fields.values == map[] && fields.added == map[] && fields.cleared == {}
      ensures Edges() == Pendings(NOTHING, UNTOUCHED, UNTOUCHED, NOTHING, NOTHING)
    {
      this.id, done := id, false;
      fields := new FieldMutation.FieldMutation();
      groups := new ToManyEdge();
      proxy := new ToOneEdge();
      parent := new ToOneEdge();
      children := new ToManyEdge();
      usageLogs := new ToManyEdge();
    }

    function Edges(): Pendings
      reads groups, proxy, parent, children, usageLogs
    {
      Pendings(groups.Pending(), proxy.Pending(), parent.Pending(), children.Pending(), usageLogs.Pending())
    }
  }

  /** The lists hold exactly the pending field changes, in schema order, and the pending changes of the five edges. */
  ghost predicate Carries(spec: UpdateSpec, m: AccountMutation)
    reads m.fields, m.groups, m.proxy, m.parent, m.children, m.usageLogs
  {
    && spec.sets == Picked(STATEMENTS.sets, m.fields.values)
    && spec.adds == Picked(STATEMENTS.adds, m.fields.added)
    && spec.clears == Flagged(STATEMENTS.clears, m.fields.cleared)
    && Changes(spec.clearEdges) == AllChanges(m.Edges()).clear
    && Changes(spec.addEdges) == AllChanges(m.Edges()).add
  }

  lemma AllStatements()
    ensures Followed(Followed(Followed(Followed(NOTHING_YET, IDENTITY), CAPACITY), SCHEDULING), SESSION) == STATEMENTS
  {
    hide IDENTITY, CAPACITY, SCHEDULING, SESSION;
    assert Followed(NOTHING_YET, IDENTITY) == IDENTITY;
  }

  lemma SendsFields(spec: UpdateSpec, log: Log, m: FieldData)
    requires Sends(spec, log, m)
    ensures spec.sets == Picked(log.sets, m.values) && spec.adds == Picked(log.adds, m.added)
    ensures spec.clears == Flagged(log.clears, m.cleared)
  {
  }

  lemma NoChanges()
    ensures Changes([]) == []
  {
  }

  /** The clears and adds of the five edges, statement by statement. */
  lemma AppendedInOrder(p: Pendings)
    ensures AllChanges(p).clear ==
            [] + ClearOf(Groups, p.groups.cleared) + RemovalOf(Groups, p.groups.removed, p.groups.cleared)
               + ClearOf(Proxy, p.proxy.fieldCleared || p.proxy.edgeCleared)
               + ClearOf(Parent, p.parent.fieldCleared || p.parent.edgeCleared)
               + ClearOf(Children, p.children.cleared) + RemovalOf(Children, p.children.removed, p.children.cleared)
               + ClearOf(UsageLogs, p.usageLogs.cleared)
               + RemovalOf(UsageLogs, p.usageLogs.removed, p.usageLogs.cleared)
    ensures AllChanges(p).add ==
            [] + AdditionOf(Groups, p.groups.added) + AdditionOf(Proxy, AsSet(p.proxy.target))
               + AdditionOf(Parent, AsSet(p.parent.target)) + AdditionOf(Children, p.children.added)
               + AdditionOf(UsageLogs, p.usageLogs.added)
  {
    ManyInOrder(Groups, p.groups);
    OneInOrder(Proxy, p.proxy);
    OneInOrder(Parent, p.parent);
    ManyInOrder(Children, p.children);
    ManyInOrder(UsageLogs, p.usageLogs);
    hide ManyChanges, OneChanges, ClearOf, RemovalOf, AdditionOf;
    Spread(ClearOf(Groups, p.groups.cleared), RemovalOf(Groups, p.groups.removed, p.groups.cleared),
           ClearOf(Proxy, p.proxy.fieldCleared || p.proxy.edgeCleared),
           ClearOf(Parent, p.parent.fieldCleared || p.parent.edgeCleared),
           ClearOf(Children, p.children.cleared), RemovalOf(Children, p.children.removed, p.children.cleared),
           ClearOf(UsageLogs, p.usageLogs.cleared), RemovalOf(UsageLogs, p.usageLogs.removed, p.usageLogs.cleared));
  }

  lemma Spread<T>(g: seq<T>, h: seq<T>, x: seq<T>, a: seq<T>, c: seq<T>, d: seq<T>, u: seq<T>, v: seq<T>)
    ensures [] + g + h + x + a + c + d + u + v == (g + h) + x + a + (c + d) + (u + v)
  {
  }

  lemma ManyInOrder(e: EdgeName, p: PendingMany)
    ensures ManyChanges(e, p).clear == ClearOf(e, p.cleared) + RemovalOf(e, p.removed, p.cleared)
    ensures ManyChanges(e, p).add == AdditionOf(e, p.added)
  {
  }

  lemma OneInOrder(e: EdgeName, p: PendingOne)
    ensures OneChanges(e, p).clear == ClearOf(e, p.fieldCleared || p.edgeCleared)
    ensures OneChanges(e, p).add == AdditionOf(e, AsSet(p.target))
  {
  }

  // ---------- AccountUpdate.sqlSave ----------

  method IdentityOfUpdate(spec: UpdateSpec, m: FieldData, ghost log: Log) returns (spec': UpdateSpec, ghost log': Log)
    requires Sends(spec, log, m)
    ensures log' == Followed(log, IDENTITY) && Sends(spec', log', m)
    ensures spec'.clearEdges == spec.clearEdges && spec'.addEdges == spec.addEdges
  {
    hide Sends;
    spec', log' := spec, log;
    spec', log' := SetField(spec', m, UpdatedAt, TypeTime, log');
    spec', log' := SetField(spec', m, DeletedAt, TypeTime, log');
    spec', log' := ClearField(spec', m, DeletedAt, TypeTime, log');
    spec', log' := SetField(spec', m, Name, TypeString, log');
    spec', log' := SetField(spec', m, Notes, TypeString, log');
    spec', log' := ClearField(spec', m, Notes, TypeString, log');
    spec', log' := SetField(spec', m, Platform, TypeString, log');
    spec', log' := SetField(spec', m, Type, TypeString, log');
    spec', log' := SetField(spec', m, Credentials, TypeJSON, log');
    spec', log' := SetField(spec', m, Extra, TypeJSON, log');
    assert log'.sets == log.sets + IDENTITY.sets;
    assert log'.adds == log.adds + IDENTITY.adds;
    assert log'.clears == log.clears + IDENTITY.clears;
  }

  method CapacityOfUpdate(spec: UpdateSpec, m: FieldData, ghost log: Log) returns (spec': UpdateSpec, ghost log': Log)
    requires Sends(spec, log, m)
    ensures log' == Followed(log, CAPACITY) && Sends(spec', log', m)
    ensures spec'.clearEdges == spec.clearEdges && spec'.addEdges == spec.addEdges
  {
    hide Sends;
    spec', log' := spec, log;
    spec', log' := SetField(spec', m, ProxyFallbackOriginID, TypeInt64, log');
    spec', log' := AddField(spec', m, ProxyFallbackOriginID, TypeInt64, log');
    spec', log' := ClearField(spec', m, ProxyFallbackOriginID, TypeInt64, log');
    spec', log' := SetField(spec', m, Concurrency, TypeInt, log');
    spec', log' := AddField(spec', m, Concurrency, TypeInt, log');
    spec', log' := SetField(spec', m, LoadFactor, TypeInt, log');
    spec', log' := AddField(spec', m, LoadFactor, TypeInt, log');
    spec', log' := ClearField(spec', m, LoadFactor, TypeInt, log');
    spec', log' := SetField(spec', m, Priority, TypeInt, log');
    spec', log' := AddField(spec', m, Priority, TypeInt, log');
    spec', log' := SetField(spec', m, RateMultiplier, TypeFloat64, log');
    spec', log' := AddField(spec', m, RateMultiplier, TypeFloat64, log');
    spec', log' := SetField(spec', m, Status, TypeString, log');
    assert log'.sets == log.sets + CAPACITY.sets;
    assert log'.adds == log.adds + CAPACITY.adds;
    assert log'.clears == log.clears + CAPACITY.clears;
  }

  method SchedulingOfUpdate(spec: UpdateSpec, m: FieldData, ghost log: Log) returns (spec': UpdateSpec, ghost log': Log)
    requires Sends(spec, log, m)
    ensures log' == Followed(log, SCHEDULING) && Sends(spec', log', m)
    ensures spec'.clearEdges == spec.clearEdges && spec'.addEdges == spec.addEdges
  {
    hide Sends;
    spec', log' := spec, log;
    spec', log' := SetField(spec', m, ErrorMessage, TypeString, log');
    spec', log' := ClearField(spec', m, ErrorMessage, TypeString, log');
    spec', log' := SetField(spec', m, LastUsedAt, TypeTime, log');
    spec', log' := ClearField(spec', m, LastUsedAt, TypeTime, log');
    spec', log' := SetField(spec', m, ExpiresAt, TypeTime, log');
    spec', log' := ClearField(spec', m, ExpiresAt, TypeTime, log');
    spec', log' := SetField(spec', m, AutoPauseOnExpired, TypeBool, log');
    spec', log' := SetField(spec', m, Schedulable, TypeBool, log');
    spec', log' := SetField(spec', m, RateLimitedAt, TypeTime, log');
    spec', log' := ClearField(spec', m, RateLimitedAt, TypeTime, log');
    spec', log' := SetField(spec', m, RateLimitResetAt, TypeTime, log');
    spec', log' := ClearField(spec', m, RateLimitResetAt, TypeTime, log');
    assert log'.sets == log.sets + SCHEDULING.sets;
    assert log'.adds == log.adds + SCHEDULING.adds;
    assert log'.clears == log.clears + SCHEDULING.clears;
  }

  method SessionOfUpdate(spec: UpdateSpec, m: FieldData, ghost log: Log) returns (spec': UpdateSpec, ghost log': Log)
    requires Sends(spec, log, m)
    ensures log' == Followed(log, SESSION) && Sends(spec', log', m)
    ensures spec'.clearEdges == spec.clearEdges && spec'.addEdges == spec.addEdges
  {
    hide Sends;
    spec', log' := spec, log;
    spec', log' := SetField(spec', m, OverloadUntil, TypeTime, log');
    spec', log' := ClearField(spec', m, OverloadUntil, TypeTime, log');
    spec', log' := SetField(spec', m, TempUnschedulableUntil, TypeTime, log');
    spec', log' := ClearField(spec', m, TempUnschedulableUntil, TypeTime, log');
    spec', log' := SetField(spec', m, TempUnschedulableReason, TypeString, log');
    spec', log' := ClearField(spec', m, TempUnschedulableReason, TypeString, log');
    spec', log' := SetField(spec', m, SessionWindowStart, TypeTime, log');
    spec', log' := ClearField(spec', m, SessionWindowStart, TypeTime, log');
    spec', log' := SetField(spec', m, SessionWindowEnd, TypeTime, log');
    spec', log' := ClearField(spec', m, SessionWindowEnd, TypeTime, log');
    spec', log' := SetField(spec', m, SessionWindowStatus, TypeString, log');
    spec', log' := ClearField(spec', m, SessionWindowStatus, TypeString, log');
    spec', log' := SetField(spec', m, QuotaDimension, TypeEnum, log');
    assert log'.sets == log.sets + SESSION.sets;
    assert log'.adds == log.adds + SESSION.adds;
    assert log'.clears == log.clears + SESSION.clears;
  }

  /** The specs AccountUpdate.sqlSave sends. */
  method EmitOfUpdate(m: AccountMutation) returns (spec: UpdateSpec)
    ensures Carries(spec, m)
  {
    var fields := FieldData(m.fields.values, m.fields.added, m.fields.cleared);
    ghost var log := NOTHING_YET;
    spec := EMPTY;
    assert Sends(spec, log, fields);
    hide Sends, STATEMENTS, AllChanges;
    spec, log := IdentityOfUpdate(spec, fields, log);
    spec, log := CapacityOfUpdate(spec, fields, log);
    spec, log := SchedulingOfUpdate(spec, fields, log);
    spec, log := SessionOfUpdate(spec, fields, log);
    AllStatements();
    SendsFields(spec, log, fields);
    spec := EdgesOfUpdate(m, spec);
  }

  method EdgesOfUpdate(m: AccountMutation, spec: UpdateSpec) returns (spec': UpdateSpec)
    requires spec.clearEdges == [] && spec.addEdges == []
    ensures spec' == spec.(clearEdges := spec'.clearEdges, addEdges := spec'.addEdges)
    ensures Changes(spec'.clearEdges) == AllChanges(m.Edges()).clear
    ensures Changes(spec'.addEdges) == AllChanges(m.Edges()).add
  {
    hide Changes, AllChanges, ClearOf, RemovalOf, AdditionOf;
    NoChanges();
    AppendedInOrder(m.Edges());
    spec' := ClearEdge(spec, Groups, m.groups.cleared);
    spec' := RemoveNodes(spec', Groups, m.groups.removed, m.groups.cleared);
    spec' := AddNodes(spec', Groups, m.groups.added);
    spec' := ClearEdge(spec', Proxy, m.proxy.fieldCleared || m.proxy.edgeCleared);
    spec' := AddNodes(spec', Proxy, AsSet(m.proxy.target));
    spec' := ClearEdge(spec', Parent, m.parent.fieldCleared || m.parent.edgeCleared);
    spec' := AddNodes(spec', Parent, AsSet(m.parent.target));
    spec' := ClearEdge(spec', Children, m.children.cleared);
    spec' := RemoveNodes(spec', Children, m.children.removed, m.children.cleared);
    spec' := AddNodes(spec', Children, m.children.added);
    spec' := ClearEdge(spec', UsageLogs, m.usageLogs.cleared);
    spec' := RemoveNodes(spec', UsageLogs, m.usageLogs.removed, m.usageLogs.cleared);
    spec' := AddNodes(spec', UsageLogs, m.usageLogs.added);
  }

  // ---------- AccountUpdateOne.sqlSave ----------

  method IdentityOfUpdateOne(spec: UpdateSpec, m: FieldData, ghost log: Log)
    returns (spec': UpdateSpec, ghost log': Log)
    requires Sends(spec, log, m)
    ensures log' == Followed(log, IDENTITY) && Sends(spec', log', m)
    ensures spec'.clearEdges == spec.clearEdges && spec'.addEdges == spec.addEdges
  {
    hide Sends;
    spec', log' := spec, log;
    spec', log' := SetField(spec', m, UpdatedAt, TypeTime, log');
    spec', log' := SetField(spec', m, DeletedAt, TypeTime, log');
    spec', log' := ClearField(spec', m, DeletedAt, TypeTime, log');
    spec', log' := SetField(spec', m, Name, TypeString, log');
    spec', log' := SetField(spec', m, Notes, TypeString, log');
    spec', log' := ClearField(spec', m, Notes, TypeString, log');
    spec', log' := SetField(spec', m, Platform, TypeString, log');
    spec', log' := SetField(spec', m, Type, TypeString, log');
    spec', log' := SetField(spec', m, Credentials, TypeJSON, log');
    spec', log' := SetField(spec', m, Extra, TypeJSON, log');
    assert log'.sets == log.sets + IDENTITY.sets;
    assert log'.adds == log.adds + IDENTITY.adds;
    assert log'.clears == log.clears + IDENTITY.clears;
  }

  method CapacityOfUpdateOne(spec: UpdateSpec, m: FieldData, ghost log: Log)
    returns (spec': UpdateSpec, ghost log': Log)
    requires Sends(spec, log, m)
    ensures log' == Followed(log, CAPACITY) && Sends(spec', log', m)
    ensures spec'.clearEdges == spec.clearEdges && spec'.addEdges == spec.addEdges
  {
    hide Sends;
    spec', log' := spec, log;
    spec', log' := SetField(spec', m, ProxyFallbackOriginID, TypeInt64, log');
    spec', log' := AddField(spec', m, ProxyFallbackOriginID, TypeInt64, log');
    spec', log' := ClearField(spec', m, ProxyFallbackOriginID, TypeInt64, log');
    spec', log' := SetField(spec', m, Concurrency, TypeInt, log');
    spec', log' := AddField(spec', m, Concurrency, TypeInt, log');
    spec', log' := SetField(spec', m, LoadFactor, TypeInt, log');
    spec', log' := AddField(spec', m, LoadFactor, TypeInt, log');
    spec', log' := ClearField(spec', m, LoadFactor, TypeInt, log');
    spec', log' := SetField(spec', m, Priority, TypeInt, log');
    spec', log' := AddField(spec', m, Priority, TypeInt, log');
    spec', log' := SetField(spec', m, RateMultiplier, TypeFloat64, log');
    spec', log' := AddField(spec', m, RateMultiplier, TypeFloat64, log');
    spec', log' := SetField(spec', m, Status, TypeString, log');
    assert log'.sets == log.sets + CAPACITY.sets;
    assert log'.adds == log.adds + CAPACITY.adds;
    assert log'.clears == log.clears + CAPACITY.clears;
  }

  method SchedulingOfUpdateOne(spec: UpdateSpec, m: FieldData, ghost log: Log)
    returns (spec': UpdateSpec, ghost log': Log)
    requires Sends(spec, log, m)
    ensures log' == Followed(log, SCHEDULING) && Sends(spec', log', m)
    ensures spec'.clearEdges == spec.clearEdges && spec'.addEdges == spec.addEdges
  {
    hide Sends;
    spec', log' := spec, log;
    spec', log' := SetField(spec', m, ErrorMessage, TypeString, log');
    spec', log' := ClearField(spec', m, ErrorMessage, TypeString, log');
    spec', log' := SetField(spec', m, LastUsedAt, TypeTime, log');
    spec', log' := ClearField(spec', m, LastUsedAt, TypeTime, log');
    spec', log' := SetField(spec', m, ExpiresAt, TypeTime, log');
    spec', log' := ClearField(spec', m, ExpiresAt, TypeTime, log');
    spec', log' := SetField(spec', m, AutoPauseOnExpired, TypeBool, log');
    spec', log' := SetField(spec', m, Schedulable, TypeBool, log');
    spec', log' := SetField(spec', m, RateLimitedAt, TypeTime, log');
    spec', log' := ClearField(spec', m, RateLimitedAt, TypeTime, log');
    spec', log' := SetField(spec', m, RateLimitResetAt, TypeTime, log');
    spec', log' := ClearField(spec', m, RateLimitResetAt, TypeTime, log');
    assert log'.sets == log.sets + SCHEDULING.sets;
    assert log'.adds == log.adds + SCHEDULING.adds;
    assert log'.clears == log.clears + SCHEDULING.clears;
  }

  method SessionOfUpdateOne(spec: UpdateSpec, m: FieldData, ghost log: Log) returns (spec': UpdateSpec, ghost log': Log)
    requires Sends(spec, log, m)
    ensures log' == Followed(log, SESSION) && Sends(spec', log', m)
    ensures spec'.clearEdges == spec.clearEdges && spec'.addEdges == spec.addEdges
  {
    hide Sends;
    spec', log' := spec, log;
    spec', log' := SetField(spec', m, OverloadUntil, TypeTime, log');
    spec', log' := ClearField(spec', m, OverloadUntil, TypeTime, log');
    spec', log' := SetField(spec', m, TempUnschedulableUntil, TypeTime, log');
    spec', log' := ClearField(spec', m, TempUnschedulableUntil, TypeTime, log');
    spec', log' := SetField(spec', m, TempUnschedulableReason, TypeString, log');
    spec', log' := ClearField(spec', m, TempUnschedulableReason, TypeString, log');
    spec', log' := SetField(spec', m, SessionWindowStart, TypeTime, log');
    spec', log' := ClearField(spec', m, SessionWindowStart, TypeTime, log');
    spec', log' := SetField(spec', m, SessionWindowEnd, TypeTime, log');
    spec', log' := ClearField(spec', m, SessionWindowEnd, TypeTime, log');
    spec', log' := SetField(spec', m, SessionWindowStatus, TypeString, log');
    spec', log' := ClearField(spec', m, SessionWindowStatus, TypeString, log');
    spec', log' := SetField(spec', m, QuotaDimension, TypeEnum, log');
    assert log'.sets == log.sets + SESSION.sets;
    assert log'.adds == log.adds + SESSION.adds;
    assert log'.clears == log.clears + SESSION.clears;
  }

  /** The specs AccountUpdateOne.sqlSave sends. */
  method EmitOfUpdateOne(m: AccountMutation) returns (spec: UpdateSpec)
    ensures Carries(spec, m)
  {
    var fields := FieldData(m.fields.values, m.fields.added, m.fields.cleared);
    ghost var log := NOTHING_YET;
    spec := EMPTY;
    assert Sends(spec, log, fields);
    hide Sends, STATEMENTS, AllChanges;
    spec, log := IdentityOfUpdateOne(spec, fields, log);
    spec, log := CapacityOfUpdateOne(spec, fields, log);
    spec, log := SchedulingOfUpdateOne(spec, fields, log);
    spec, log := SessionOfUpdateOne(spec, fields, log);
    AllStatements();
    SendsFields(spec, log, fields);
    spec := EdgesOfUpdateOne(m, spec);
  }

  method EdgesOfUpdateOne(m: AccountMutation, spec: UpdateSpec) returns (spec': UpdateSpec)
    requires spec.clearEdges == [] && spec.addEdges == []
    ensures spec' == spec.(clearEdges := spec'.clearEdges, addEdges := spec'.addEdges)
    ensures Changes(spec'.clearEdges) == AllChanges(m.Edges()).clear
    ensures Changes(spec'.addEdges) == AllChanges(m.Edges()).add
  {
    hide Changes, AllChanges, ClearOf, RemovalOf, AdditionOf;
    NoChanges();
    AppendedInOrder(m.Edges());
    spec' := ClearEdge(spec, Groups, m.groups.cleared);
    spec' := RemoveNodes(spec', Groups, m.groups.removed, m.groups.cleared);
    spec' := AddNodes(spec', Groups, m.groups.added);
    spec' := ClearEdge(spec', Proxy, m.proxy.fieldCleared || m.proxy.edgeCleared);
    spec' := AddNodes(spec', Proxy, AsSet(m.proxy.target));
    spec' := ClearEdge(spec', Parent, m.parent.fieldCleared || m.parent.edgeCleared);
    spec' := AddNodes(spec', Parent, AsSet(m.parent.target));
    spec' := ClearEdge(spec', Children, m.children.cleared);
    spec' := RemoveNodes(spec', Children, m.children.removed, m.children.cleared);
    spec' := AddNodes(spec', Children, m.children.added);
    spec' := ClearEdge(spec', UsageLogs, m.usageLogs.cleared);
    spec' := RemoveNodes(spec', UsageLogs, m.usageLogs.removed, m.usageLogs.cleared);
    spec' := AddNodes(spec', UsageLogs, m.usageLogs.added);
  }

  // ---------- the two bodies send the same ----------

  /** Equal field lists; equal edge lists up to the order of the nodes in each spec. */
  predicate SameSpec(a: UpdateSpec, b: UpdateSpec) {
    && a.sets == b.sets && a.adds == b.adds && a.clears == b.clears
    && Changes(a.clearEdges) == Changes(b.clearEdges) && Changes(a.addEdges) == Changes(b.addEdges)
  }

  /** Runs both bodies on one mutation. */
  method EmitBoth(m: AccountMutation) returns (many: UpdateSpec, one: UpdateSpec)
    ensures SameSpec(many, one)
    ensures Carries(many, m) && Carries(one, m)
  {
    hide STATEMENTS, AllChanges;
    many := EmitOfUpdate(m);
    one := EmitOfUpdateOne(m);
  }

  /** What the specs say of one column, from the calls the builder got for it. */
  lemma ColumnIsSent(spec: UpdateSpec, m: AccountMutation, f: Field, t: ColumnType, ops: seq<FieldMutation.FieldOp>)
    requires Carries(spec, m) && f != CreatedAt && SpecType(f) == Some(t)
    requires FieldMutation.Allowed(FieldMutation.Numeric(StructType(f)), ops)
    requires m.fields.PendingFor(f) == FieldMutation.RecordedAll(FieldMutation.Numeric(StructType(f)), ops)
    ensures forall v :: FieldSpec(f, t, v) in spec.sets <==>
            FieldMutation.LastWrite(ops) == Some(FieldMutation.SetTo(v))
    ensures forall d :: FieldSpec(f, t, d) in spec.adds <==>
              FieldMutation.Numeric(StructType(f)) && FieldMutation.AddedSince(ops) == Some(d)
    ensures ColumnRef(f, t) in spec.clears <==>
            IsPointer(f) && if FieldMutation.Numeric(StructType(f))
                            then FieldMutation.LastWrite(ops) == Some(FieldMutation.Clear)
                            else FieldMutation.Clear in ops
  {
    var numeric := FieldMutation.Numeric(StructType(f));
    FieldMutation.PendingMeaning(numeric, ops);
    NamedInStatements(f, t);
    hide SpecType, StructType, IsPointer, FieldMutation.RecordedAll, FieldMutation.Sum, FieldMutation.Numeric;
    hide FieldMutation.AddedSince, FieldMutation.Allowed, STATEMENTS, Picked, Flagged, AllChanges, Changes;
    forall v
      ensures FieldSpec(f, t, v) in spec.sets <==> m.fields.PendingFor(f).value == Some(v)
    {
      PickedMeaning(STATEMENTS.sets, m.fields.values, FieldSpec(f, t, v));
    }
    forall d
      ensures FieldSpec(f, t, d) in spec.adds <==> numeric && m.fields.PendingFor(f).added == Some(d)
    {
      PickedMeaning(STATEMENTS.adds, m.fields.added, FieldSpec(f, t, d));
    }
    FlaggedMeaning(STATEMENTS.clears, m.fields.cleared, ColumnRef(f, t));
  }

  lemma FlaggedMeaning(order: seq<ColumnRef>, flags: set<Field>, c: ColumnRef)
    ensures c in Flagged(order, flags) <==> c in order && c.column in flags
  {
    FilterMembers(order, (c: ColumnRef) => c.column in flags, c);
  }

  lemma NamedInStatements(f: Field, t: ColumnType)
    requires f != CreatedAt && SpecType(f) == Some(t)
    ensures ColumnRef(f, t) in STATEMENTS.sets
    ensures ColumnRef(f, t) in STATEMENTS.adds <==> FieldMutation.Numeric(StructType(f))
    ensures ColumnRef(f, t) in STATEMENTS.clears <==> IsPointer(f)
  {
    hide STATEMENTS;
    StatementsMeaning(ColumnRef(f, t));
  }

  /** A column is both set and cleared exactly when it can be NULL, is not numeric, was cleared, and was set last. */
  lemma SetAndClearedIff(spec: UpdateSpec, m: AccountMutation, f: Field, t: ColumnType, ops: seq<FieldMutation.FieldOp>)
    requires Carries(spec, m) && f != CreatedAt && SpecType(f) == Some(t)
    requires FieldMutation.Allowed(FieldMutation.Numeric(StructType(f)), ops)
    requires m.fields.PendingFor(f) == FieldMutation.RecordedAll(FieldMutation.Numeric(StructType(f)), ops)
    ensures (exists v :: FieldSpec(f, t, v) in spec.sets) && ColumnRef(f, t) in spec.clears <==>
            && IsPointer(f) && !FieldMutation.Numeric(StructType(f)) && FieldMutation.Clear in ops
            && FieldMutation.LastWrite(ops).Some? && FieldMutation.LastWrite(ops).value.SetTo?
  {
    hide Carries, SpecType, StructType, IsPointer, FieldMutation.RecordedAll, FieldMutation.AddedSince;
    ColumnIsSent(spec, m, f, t, ops);
    var w := FieldMutation.LastWrite(ops);
    if w.Some? && w.value.SetTo? {
      assert FieldSpec(f, t, w.value.value) in spec.sets;
    }
  }

  // ---------- sqlSave ----------

  /** AccountUpdate.check: a value is validated if it is set; nothing is required. */
  const UPDATE_CHECKS: seq<Check> := [
    Validate(Name), Validate(Platform), Validate(Type), Validate(Status), Validate(SessionWindowStatus),
    Validate(QuotaDimension)]

  /** AccountUpdateOne.check */
  const UPDATE_ONE_CHECKS: seq<Check> := [
    Validate(Name), Validate(Platform), Validate(Type), Validate(Status), Validate(SessionWindowStatus),
    Validate(QuotaDimension)]

  /** Both update builders accept what satisfies the validators, and check the columns in their order. */
  lemma UpdateChecksMeaning(rt: Runtime, fields: Fields)
    ensures CheckError(rt, UPDATE_CHECKS, fields).None? <==> ValuesAreValid(rt, fields)
    ensures CheckError(rt, UPDATE_ONE_CHECKS, fields) == CheckError(rt, UPDATE_CHECKS, fields)
    ensures Increasing(UPDATE_CHECKS, Rank)
  {
    CheckErrorMeaning(rt, UPDATE_CHECKS, fields);
    ValidatedMeaning(rt, fields);
    SameFields();
    UpdateRanks();
    hide Valid, ValuesAreValid, VALIDATED, UPDATE_CHECKS, UPDATE_ONE_CHECKS, Rank;
    forall f | f in VALIDATED
      ensures Validate(f) in UPDATE_CHECKS
    {
      var i :| 0 <= i < |VALIDATED| && VALIDATED[i] == f;
      assert UPDATE_CHECKS[i] == Validate(f);
    }
  }

  lemma SameFields()
    ensures |UPDATE_CHECKS| == |VALIDATED| && UPDATE_ONE_CHECKS == UPDATE_CHECKS
    ensures forall i | 0 <= i < |VALIDATED| :: UPDATE_CHECKS[i] == Validate(VALIDATED[i])
  {
  }

  lemma UpdateRanks()
    ensures Increasing(UPDATE_CHECKS, Rank)
  {
    var ranks := [9, 13, 15, 33, 59, 63];
    assert forall i | 0 <= i < 6 :: Rank(UPDATE_CHECKS[i]) == ranks[i];
  }

  datatype Failure =
    | UninitializedDefault | Invalid(check: Check) | MissingID | InvalidColumn
    | NotFoundError | ConstraintError | DriverError

  /** What sqlgraph.UpdateNodes or UpdateNode answers: the number of accounts updated, or its error. */
  datatype Answer = Updated(count: nat) | Refused(error: Failure)

  datatype Saved = Saved(count: nat) | Failed(error: Failure)

  /** AccountUpdate.sqlSave; sent is what reaches the driver, if anything does. */
  method SqlSave(rt: Runtime, m: AccountMutation, answer: Answer) returns (r: Saved, sent: Option<UpdateSpec>)
    modifies m`done
    ensures var invalid := CheckError(rt, UPDATE_CHECKS, m.fields.values);
            && (sent.Some? <==> invalid.None?)
            && (invalid.Some? ==> r == Failed(Invalid(invalid.value)))
    ensures sent.Some? ==> Carries(sent.value, m)
    ensures sent.Some? ==> r == match answer case Updated(n) => Saved(n) case Refused(error) => Failed(error)
    ensures m.done == (old(m.done) || r.Saved?)
  {
    hide STATEMENTS, AllChanges, Picked, Flagged;
    var invalid := CheckError(rt, UPDATE_CHECKS, m.fields.values);
    if invalid.Some? {
      return Failed(Invalid(invalid.value)), None;
    }
    var spec := EmitOfUpdate(m);
    if answer.Refused? {
      return Failed(answer.error), Some(spec);
    }
    m.done := true;
    return Saved(answer.count), Some(spec);
  }

  /** The columns an updated account is read back with: the id once, then the other selected columns as they come. */
  function ReadBack<T(==)>(id: T, fields: seq<Option<T>>): seq<T> {
    [id] + Filter(Somes(fields), f => f != id)
  }

  /** Select's columns; None when a name is no column. */
  method SelectedColumns<T(==)>(id: T, fields: seq<Option<T>>) returns (columns: Option<seq<T>>)
    ensures columns == if None in fields then None else Some(ReadBack(id, fields))
  {
    var selected := [id];
    for i := 0 to |fields|
      invariant None !in fields[..i]
      invariant selected == ReadBack(id, fields[..i])
    {
      if fields[i].None? {
        return None;
      }
      var f := fields[i].value;
      assert fields[..i + 1] == fields[..i] + [Some(f)];
      ReadBackSnoc(id, fields[..i], f);
      if f != id {
        selected := selected + [f];
      }
    }
    assert fields[..|fields|] == fields;
    return Some(selected);
  }

  lemma ReadBackSnoc<T>(id: T, s: seq<Option<T>>, x: T)
    ensures ReadBack(id, s + [Some(x)]) == if x != id then ReadBack(id, s) + [x] else ReadBack(id, s)
  {
    var present := Somes(s);
    assert (s + [Some(x)])[..|s|] == s && (present + [x])[..|present|] == present;
  }

  /** The id is read first and once, and otherwise what is selected. */
  lemma ReadBackMeaning<T>(id: T, fields: seq<Option<T>>, f: T)
    ensures ReadBack(id, fields)[0] == id && id !in ReadBack(id, fields)[1..]
    ensures f in ReadBack(id, fields) <==> f == id || Some(f) in fields
  {
    var others := Filter(Somes(fields), g => g != id);
    FilterMembers(Somes(fields), g => g != id, f);
    FilterMembers(Somes(fields), g => g != id, id);
    SomesMembers(fields, f);
    assert ReadBack(id, fields) == [id] + others && ReadBack(id, fields)[1..] == others;
  }

  /** AccountUpdateOne.sqlSave; fields: the columns named in Select, None for a name that is no column. */
  method SqlSaveOne(rt: Runtime, m: AccountMutation, fields: seq<Option<Field>>, answer: Answer)
    returns (r: Saved, sent: Option<UpdateSpec>, columns: seq<Field>)
    modifies m`done
    ensures var invalid := CheckError(rt, UPDATE_ONE_CHECKS, m.fields.values);
            && (sent.Some? <==> invalid.None? && m.id.Some? && None !in fields)
            && (invalid.Some? ==> r == Failed(Invalid(invalid.value)))
            && (invalid.None? && m.id.None? ==> r == Failed(MissingID))
            && (invalid.None? && m.id.Some? && None in fields ==> r == Failed(InvalidColumn))
    ensures sent.Some? ==> Carries(sent.value, m)
    ensures sent.Some? ==> r == match answer case Updated(n) => Saved(n) case Refused(error) => Failed(error)
    ensures sent.Some? ==> columns == if fields == [] then Columns() else ReadBack(ID, fields)
    ensures m.done == (old(m.done) || r.Saved?)
  {
    hide STATEMENTS, AllChanges, Picked, Flagged, Columns, ReadBack;
    columns := Columns();
    var invalid := CheckError(rt, UPDATE_ONE_CHECKS, m.fields.values);
    if invalid.Some? {
      return Failed(Invalid(invalid.value)), None, columns;
    }
    if m.id.None? {
      return Failed(MissingID), None, columns;
    }
    if |fields| > 0 {
      var selected := SelectedColumns(ID, fields);
      if selected.None? {
        return Failed(InvalidColumn), None, columns;
      }
      columns := selected.value;
    }
    var spec := EmitOfUpdateOne(m);
    if answer.Refused? {
      return Failed(answer.error), Some(spec), columns;
    }
    m.done := true;
    return Saved(answer.count), Some(spec), columns;
  }

  /** AccountUpdate.Save without hooks: the default of updated_at, then sqlSave. */
  method Save(rt: Runtime, updateDefault: Option<int>, m: AccountMutation, answer: Answer)
    returns (r: Saved, sent: Option<UpdateSpec>)
    modifies m`done, m.fields
    ensures UpdatedAt !in old(m.fields.values) && updateDefault.None? <==>
            r == Failed(UninitializedDefault) && sent.None?
    ensures r != Failed(UninitializedDefault) || sent.Some? ==>
              var invalid := CheckError(rt, UPDATE_CHECKS, m.fields.values);
              && (sent.Some? <==> invalid.None?)
              && (invalid.Some? ==> r == Failed(Invalid(invalid.value)))
    ensures sent.Some? ==> r == match answer case Updated(n) => Saved(n) case Refused(error) => Failed(error)
    ensures sent.Some? ==> Carries(sent.value, m)
    ensures sent.Some? ==> forall t, v :: FieldSpec(UpdatedAt, t, v) in sent.value.sets <==>
                             && t == TypeTime
                             && v == if UpdatedAt in old(m.fields.values) then old(m.fields.values)[UpdatedAt]
                                     else VTime(updateDefault.value)
    ensures forall f | f != UpdatedAt || UpdatedAt in old(m.fields.values) || updateDefault.None? ::
              m.fields.PendingFor(f) == old(m.fields.PendingFor(f))
    ensures UpdatedAt !in old(m.fields.values) && updateDefault.Some? ==>
              m.fields.PendingFor(UpdatedAt)
              == old(m.fields.PendingFor(UpdatedAt)).(value := Some(VTime(updateDefault.value)))
    ensures m.done == (old(m.done) || r.Saved?)
  {
    hide STATEMENTS, AllChanges, Picked, Flagged;
    if UpdatedAt !in m.fields.values {
      if updateDefault.None? {
        return Failed(UninitializedDefault), None;
      }
      m.fields.SetField(UpdatedAt, VTime(updateDefault.value));
      assert m.fields.PendingFor(UpdatedAt).value == Some(VTime(updateDefault.value));
    }
    r, sent := SqlSave(rt, m, answer);
    if sent.Some? {
      forall t, v
        ensures FieldSpec(UpdatedAt, t, v) in sent.value.sets <==> t == TypeTime && v == m.fields.values[UpdatedAt]
      {
        StatementsMeaning(ColumnRef(UpdatedAt, t));
        PickedMeaning(STATEMENTS.sets, m.fields.values, FieldSpec(UpdatedAt, t, v));
      }
    }
  }
}
