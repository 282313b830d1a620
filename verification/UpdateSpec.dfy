/** sqlgraph.UpdateSpec as the generated code fills it: columns to set, add to and clear, and edge changes. */
module UpdateSpec {
  import opened Collections
  import opened AccountSchema
  import opened AccountCodec
  import opened FieldMutation
  import opened EdgeMutation

  datatype EdgeName = Groups | Proxy | Parent | Children | UsageLogs

  /** sqlgraph.EdgeSpec: in a list of clears, no nodes means every node. */
  datatype EdgeSpec = EdgeSpec(edge: EdgeName, nodes: seq<int>)

  /** An edge spec up to the order of its nodes, which Go's map iteration leaves open. */
  datatype EdgeChange = EdgeChange(edge: EdgeName, nodes: set<int>)

  function Changes(specs: seq<EdgeSpec>): (changes: seq<EdgeChange>)
    ensures |changes| == |specs|
    ensures forall i | 0 <= i < |specs| :: changes[i] == EdgeChange(specs[i].edge, Members(specs[i].nodes))
  {
    seq(|specs|, i requires 0 <= i < |specs| => EdgeChange(specs[i].edge, Members(specs[i].nodes)))
  }

  lemma ChangesSnoc(specs: seq<EdgeSpec>, e: EdgeName, nodes: seq<int>)
    ensures Changes(specs + [EdgeSpec(e, nodes)]) == Changes(specs) + [EdgeChange(e, Members(nodes))]
    ensures Changes(specs) + [] == Changes(specs)
    ensures Members(nodes) == {} <==> nodes == []
  {
    assert nodes != [] ==> nodes[0] in Members(nodes);
    var more := specs + [EdgeSpec(e, nodes)];
    assert forall i | 0 <= i < |specs| :: Changes(more)[i] == Changes(specs)[i];
  }

  /** A column as a statement names it. */
  datatype ColumnRef = ColumnRef(column: Field, t: ColumnType)

  /** The specs of the listed columns that have a value, in order. */
  function Picked(order: seq<ColumnRef>, values: map<Field, Scalar>): seq<FieldSpec> {
    if order == [] then []
    else
      var before := Picked(order[..|order| - 1], values);
      var c := order[|order| - 1];
      if c.column in values then before + [FieldSpec(c.column, c.t, values[c.column])] else before
  }

  function Flagged(order: seq<ColumnRef>, flags: set<Field>): seq<ColumnRef> {
    Filter(order, (c: ColumnRef) => c.column in flags)
  }

  lemma PickedSnoc(order: seq<ColumnRef>, c: ColumnRef, values: map<Field, Scalar>)
    ensures Picked(order + [c], values)
         == Picked(order, values) + if c.column in values then [FieldSpec(c.column, c.t, values[c.column])] else []
  {
    assert (order + [c])[..|order|] == order;
  }

  lemma FlaggedSnoc(order: seq<ColumnRef>, c: ColumnRef, flags: set<Field>)
    ensures Flagged(order + [c], flags) == Flagged(order, flags) + if c.column in flags then [c] else []
  {
    assert (order + [c])[..|order|] == order;
  }

  /** A column is sent exactly when it is listed and has a value, which is what is sent. */
  lemma {:induction false} PickedMeaning(order: seq<ColumnRef>, values: map<Field, Scalar>, s: FieldSpec)
    ensures s in Picked(order, values) <==>
            ColumnRef(s.column, s.t) in order && s.column in values && values[s.column] == s.value
  {
    if order != [] {
      var n := |order| - 1;
      PickedMeaning(order[..n], values, s);
      assert order == order[..n] + [order[n]];
    }
  }

  /** RemovedGroupsIDs, GroupsIDs: the keys of a Go map, in whatever order it gives them. */
  method Keys(ids: set<int>) returns (keys: seq<int>)
    ensures Members(keys) == ids && Distinct(keys)
  {
    keys := [];
    var rest := ids;
    while rest != {}
      invariant rest <= ids && Members(keys) == ids - rest && Distinct(keys)
      decreases rest
    {
      assert (forall k :: k !in rest) ==> rest == {};
      var id :| id in rest;
      assert id !in Members(keys);
      assert Members(keys + [id]) == Members(keys) + {id};
      keys, rest := keys + [id], rest - {id};
    }
  }

  /** The lists sqlSave fills; they are local to it. */
  datatype UpdateSpec = UpdateSpec(
    sets: seq<FieldSpec>, adds: seq<FieldSpec>, clears: seq<ColumnRef>,
    clearEdges: seq<EdgeSpec>, addEdges: seq<EdgeSpec>)

  const EMPTY := UpdateSpec([], [], [], [], [])

  /** The columns of the statements executed so far, whether they sent something or not. */
  datatype Log = Log(sets: seq<ColumnRef>, adds: seq<ColumnRef>, clears: seq<ColumnRef>)

  const NOTHING_YET := Log([], [], [])

  /** The pending field changes of a mutation, as sqlSave reads them. */
  datatype FieldData = FieldData(values: map<Field, Scalar>, added: map<Field, Scalar>, cleared: set<Field>)

  /** The three field lists hold what the statements so far had to send. */
  predicate Sends(spec: UpdateSpec, log: Log, m: FieldData) {
    && spec.sets == Picked(log.sets, m.values) && spec.adds == Picked(log.adds, m.added)
    && spec.clears == Flagged(log.clears, m.cleared)
  }

  /** `if value, ok := mutation.X(); ok { spec.SetField(...) }` */
  method SetField(spec: UpdateSpec, m: FieldData, f: Field, t: ColumnType, ghost log: Log)
    returns (spec': UpdateSpec, ghost log': Log)
    requires Sends(spec, log, m)
    ensures log' == log.(sets := log.sets + [ColumnRef(f, t)]) && Sends(spec', log', m)
    ensures spec'.clearEdges == spec.clearEdges && spec'.addEdges == spec.addEdges
  {
    PickedSnoc(log.sets, ColumnRef(f, t), m.values);
    spec' := spec;
    if f in m.values {
      spec' := spec.(sets := spec.sets + [FieldSpec(f, t, m.values[f])]);
    }
    log' := log.(sets := log.sets + [ColumnRef(f, t)]);
  }

  /** `if value, ok := mutation.AddedX(); ok { spec.AddField(...) }` */
  method AddField(spec: UpdateSpec, m: FieldData, f: Field, t: ColumnType, ghost log: Log)
    returns (spec': UpdateSpec, ghost log': Log)
    requires Sends(spec, log, m)
    ensures log' == log.(adds := log.adds + [ColumnRef(f, t)]) && Sends(spec', log', m)
    ensures spec'.clearEdges == spec.clearEdges && spec'.addEdges == spec.addEdges
  {
    PickedSnoc(log.adds, ColumnRef(f, t), m.added);
    spec' := spec;
    if f in m.added {
      spec' := spec.(adds := spec.adds + [FieldSpec(f, t, m.added[f])]);
    }
    log' := log.(adds := log.adds + [ColumnRef(f, t)]);
  }

  /** `if mutation.XCleared() { spec.ClearField(...) }` */
  method ClearField(spec: UpdateSpec, m: FieldData, f: Field, t: ColumnType, ghost log: Log)
    returns (spec': UpdateSpec, ghost log': Log)
    requires Sends(spec, log, m)
    ensures log' == log.(clears := log.clears + [ColumnRef(f, t)]) && Sends(spec', log', m)
    ensures spec'.clearEdges == spec.clearEdges && spec'.addEdges == spec.addEdges
  {
    FlaggedSnoc(log.clears, ColumnRef(f, t), m.cleared);
    spec' := spec;
    if f in m.cleared {
      spec' := spec.(clears := spec.clears + [ColumnRef(f, t)]);
    }
    log' := log.(clears := log.clears + [ColumnRef(f, t)]);
  }

  function ClearOf(e: EdgeName, cleared: bool): seq<EdgeChange> {
    if cleared then [EdgeChange(e, {})] else []
  }

  function RemovalOf(e: EdgeName, removed: set<int>, cleared: bool): seq<EdgeChange> {
    if removed != {} && !cleared then [EdgeChange(e, removed)] else []
  }

  function AdditionOf(e: EdgeName, added: set<int>): seq<EdgeChange> {
    if added != {} then [EdgeChange(e, added)] else []
  }

  /** `if mutation.EdgeCleared() { spec.Edges.Clear = append(...) }`: an edge without nodes. */
  method ClearEdge(spec: UpdateSpec, e: EdgeName, cleared: bool) returns (spec': UpdateSpec)
    ensures spec' == spec.(clearEdges := spec'.clearEdges)
    ensures Changes(spec'.clearEdges) == Changes(spec.clearEdges) + ClearOf(e, cleared)
  {
    ChangesSnoc(spec.clearEdges, e, []);
    spec' := if cleared then spec.(clearEdges := spec.clearEdges + [EdgeSpec(e, [])]) else spec;
  }

  /** `if nodes := mutation.RemovedIDs(); len(nodes) > 0 && !mutation.EdgeCleared() { ... }` */
  method RemoveNodes(spec: UpdateSpec, e: EdgeName, removed: set<int>, cleared: bool) returns (spec': UpdateSpec)
    ensures spec' == spec.(clearEdges := spec'.clearEdges)
    ensures Changes(spec'.clearEdges)
         == Changes(spec.clearEdges) + RemovalOf(e, removed, cleared)
  {
    var nodes := Keys(removed);
    ChangesSnoc(spec.clearEdges, e, nodes);
    spec' := if |nodes| > 0 && !cleared then spec.(clearEdges := spec.clearEdges + [EdgeSpec(e, nodes)]) else spec;
  }

  /** `if nodes := mutation.IDs(); len(nodes) > 0 { spec.Edges.Add = append(...) }` */
  method AddNodes(spec: UpdateSpec, e: EdgeName, added: set<int>) returns (spec': UpdateSpec)
    ensures spec' == spec.(addEdges := spec'.addEdges)
    ensures Changes(spec'.addEdges) == Changes(spec.addEdges) + AdditionOf(e, added)
  {
    var nodes := Keys(added);
    ChangesSnoc(spec.addEdges, e, nodes);
    spec' := if |nodes| > 0 then spec.(addEdges := spec.addEdges + [EdgeSpec(e, nodes)]) else spec;
  }

  // ---------- the columns an update can send ----------

  /** The statements of both sqlSave bodies: the columns each list names, in order, block by block. */
  const IDENTITY := Log(
    [ColumnRef(UpdatedAt, TypeTime), ColumnRef(DeletedAt, TypeTime), ColumnRef(Name, TypeString),
     ColumnRef(Notes, TypeString), ColumnRef(Platform, TypeString), ColumnRef(Type, TypeString),
     ColumnRef(Credentials, TypeJSON), ColumnRef(Extra, TypeJSON)],
    [],
    [ColumnRef(DeletedAt, TypeTime), ColumnRef(Notes, TypeString)])

  const CAPACITY := Log(
    [ColumnRef(ProxyFallbackOriginID, TypeInt64), ColumnRef(Concurrency, TypeInt), ColumnRef(LoadFactor, TypeInt),
     ColumnRef(Priority, TypeInt), ColumnRef(RateMultiplier, TypeFloat64), ColumnRef(Status, TypeString)],
    [ColumnRef(ProxyFallbackOriginID, TypeInt64), ColumnRef(Concurrency, TypeInt), ColumnRef(LoadFactor, TypeInt),
     ColumnRef(Priority, TypeInt), ColumnRef(RateMultiplier, TypeFloat64)],
    [ColumnRef(ProxyFallbackOriginID, TypeInt64), ColumnRef(LoadFactor, TypeInt)])

  const SCHEDULING := Log(
    [ColumnRef(ErrorMessage, TypeString), ColumnRef(LastUsedAt, TypeTime), ColumnRef(ExpiresAt, TypeTime),
     ColumnRef(AutoPauseOnExpired, TypeBool), ColumnRef(Schedulable, TypeBool),
     ColumnRef(RateLimitedAt, TypeTime), ColumnRef(RateLimitResetAt, TypeTime)],
    [],
    [ColumnRef(ErrorMessage, TypeString), ColumnRef(LastUsedAt, TypeTime), ColumnRef(ExpiresAt, TypeTime),
     ColumnRef(RateLimitedAt, TypeTime), ColumnRef(RateLimitResetAt, TypeTime)])

  const SESSION := Log(
    [ColumnRef(OverloadUntil, TypeTime), ColumnRef(TempUnschedulableUntil, TypeTime),
     ColumnRef(TempUnschedulableReason, TypeString), ColumnRef(SessionWindowStart, TypeTime),
     ColumnRef(SessionWindowEnd, TypeTime), ColumnRef(SessionWindowStatus, TypeString),
     ColumnRef(QuotaDimension, TypeEnum)],
    [],
    [ColumnRef(OverloadUntil, TypeTime), ColumnRef(TempUnschedulableUntil, TypeTime),
     ColumnRef(TempUnschedulableReason, TypeString), ColumnRef(SessionWindowStart, TypeTime),
     ColumnRef(SessionWindowEnd, TypeTime), ColumnRef(SessionWindowStatus, TypeString)])

  function Followed(a: Log, b: Log): Log {
    Log(a.sets + b.sets, a.adds + b.adds, a.clears + b.clears)
  }

  const STATEMENTS := Followed(Followed(Followed(IDENTITY, CAPACITY), SCHEDULING), SESSION)

  /** The block of a column, and its place among the columns that block sets, adds to and clears. */
  function BlockOf(f: Field): (n: nat)
    ensures n < 4
  {
    match f
    case UpdatedAt | DeletedAt | Name | Notes | Platform | Type | Credentials | Extra => 0
    case ProxyFallbackOriginID | Concurrency | LoadFactor | Priority | RateMultiplier | Status => 1
    case ErrorMessage | LastUsedAt | ExpiresAt | AutoPauseOnExpired | Schedulable | RateLimitedAt
       | RateLimitResetAt => 2
    case _ => 3
  }

  function SetPlace(f: Field): nat {
    match f
    case UpdatedAt => 0 case DeletedAt => 1 case Name => 2 case Notes => 3 case Platform => 4 case Type => 5
    case Credentials => 6 case Extra => 7 case ProxyFallbackOriginID => 0 case Concurrency => 1
    case LoadFactor => 2 case Priority => 3 case RateMultiplier => 4 case Status => 5 case ErrorMessage => 0
    case LastUsedAt => 1 case ExpiresAt => 2 case AutoPauseOnExpired => 3 case Schedulable => 4
    case RateLimitedAt => 5 case RateLimitResetAt => 6 case OverloadUntil => 0
    case TempUnschedulableUntil => 1 case TempUnschedulableReason => 2 case SessionWindowStart => 3
    case SessionWindowEnd => 4 case SessionWindowStatus => 5 case QuotaDimension => 6 case _ => 0
  }

  function AddPlace(f: Field): nat {
    match f
    case ProxyFallbackOriginID => 0 case Concurrency => 1 case LoadFactor => 2 case Priority => 3
    case RateMultiplier => 4 case _ => 0
  }

  function ClearPlace(f: Field): nat {
    match f
    case DeletedAt => 0 case Notes => 1 case ProxyFallbackOriginID => 0 case LoadFactor => 1
    case ErrorMessage => 0 case LastUsedAt => 1 case ExpiresAt => 2 case RateLimitedAt => 3
    case RateLimitResetAt => 4 case OverloadUntil => 0 case TempUnschedulableUntil => 1
    case TempUnschedulableReason => 2 case SessionWindowStart => 3 case SessionWindowEnd => 4
    case SessionWindowStatus => 5 case _ => 0
  }

  /** An update can set what createSpec can write, except created_at, with the same type; ... */
  predicate Settable(c: ColumnRef) {
    c.column != CreatedAt && SpecType(c.column) == Some(c.t)
  }

  /** ... add to it when, besides, it is numeric; ... */
  predicate Addable(c: ColumnRef) {
    Numeric(StructType(c.column)) && SpecType(c.column) == Some(c.t)
  }

  /** ... and clear it when, besides, it can be NULL. */
  predicate Clearable(c: ColumnRef) {
    IsPointer(c.column) && SpecType(c.column) == Some(c.t)
  }

  /** What a block names can be done to the column. */
  predicate NamesOnly(block: Log, c: ColumnRef) {
    (c in block.sets ==> Settable(c)) && (c in block.adds ==> Addable(c)) && (c in block.clears ==> Clearable(c))
  }

  /** What can be done to a column, its block names. */
  predicate NamesAll(block: Log, c: ColumnRef) {
    (Settable(c) ==> c in block.sets) && (Addable(c) ==> c in block.adds) && (Clearable(c) ==> c in block.clears)
  }

  lemma IdentityNamesOnly(c: ColumnRef)
    ensures NamesOnly(IDENTITY, c)
  {
  }

  lemma IdentityNamesAll(c: ColumnRef)
    requires BlockOf(c.column) == 0
    ensures NamesAll(IDENTITY, c)
  {
    assert Settable(c) ==> IDENTITY.sets[SetPlace(c.column)] == c;
    assert Clearable(c) ==> IDENTITY.clears[ClearPlace(c.column)] == c;
  }

  lemma CapacitySets(c: ColumnRef)
    ensures c in CAPACITY.sets ==> Settable(c)
  {
  }

  lemma CapacityClears(c: ColumnRef)
    ensures c in CAPACITY.clears ==> Clearable(c)
  {
  }

  lemma CapacityNamesOnly(c: ColumnRef)
    ensures NamesOnly(CAPACITY, c)
  {
    CapacitySets(c);
    CapacityClears(c);
    hide Settable, Clearable;
  }

  lemma CapacityNamesAll(c: ColumnRef)
    requires BlockOf(c.column) == 1
    ensures NamesAll(CAPACITY, c)
  {
    assert Settable(c) ==> CAPACITY.sets[SetPlace(c.column)] == c;
    assert Clearable(c) ==> CAPACITY.clears[ClearPlace(c.column)] == c;
    assert Addable(c) ==> CAPACITY.adds[AddPlace(c.column)] == c;
  }

  lemma SchedulingSets(c: ColumnRef)
    ensures c in SCHEDULING.sets ==> Settable(c)
  {
  }

  lemma SchedulingClears(c: ColumnRef)
    ensures c in SCHEDULING.clears ==> Clearable(c)
  {
  }

  lemma SchedulingNamesOnly(c: ColumnRef)
    ensures NamesOnly(SCHEDULING, c)
  {
    SchedulingSets(c);
    SchedulingClears(c);
    hide Settable, Clearable;
  }

  lemma SchedulingNamesAll(c: ColumnRef)
    requires BlockOf(c.column) == 2
    ensures NamesAll(SCHEDULING, c)
  {
    assert Settable(c) ==> SCHEDULING.sets[SetPlace(c.column)] == c;
    assert Clearable(c) ==> SCHEDULING.clears[ClearPlace(c.column)] == c;
  }

  lemma SessionSets(c: ColumnRef)
    ensures c in SESSION.sets ==> Settable(c)
  {
  }

  lemma SessionClears(c: ColumnRef)
    ensures c in SESSION.clears ==> Clearable(c)
  {
  }

  lemma SessionNamesOnly(c: ColumnRef)
    ensures NamesOnly(SESSION, c)
  {
    SessionSets(c);
    SessionClears(c);
    hide Settable, Clearable;
  }

  lemma SessionNamesAll(c: ColumnRef)
    requires BlockOf(c.column) == 3
    ensures NamesAll(SESSION, c)
  {
    assert Settable(c) ==> SESSION.sets[SetPlace(c.column)] == c;
    assert Clearable(c) ==> SESSION.clears[ClearPlace(c.column)] == c;
  }

  /** The lists name exactly the columns that can be set, added to and cleared, with the types createSpec gives them. */
  lemma StatementsMeaning(c: ColumnRef)
    ensures c in STATEMENTS.sets <==> Settable(c)
    ensures c in STATEMENTS.adds <==> Addable(c)
    ensures c in STATEMENTS.clears <==> Clearable(c)
  {
    IdentityNamesOnly(c);
    CapacityNamesOnly(c);
    SchedulingNamesOnly(c);
    SessionNamesOnly(c);
    hide IDENTITY, CAPACITY, SCHEDULING, SESSION, Settable, Addable, Clearable;
    match BlockOf(c.column) {
      case 0 => IdentityNamesAll(c);
      case 1 => CapacityNamesAll(c);
      case 2 => SchedulingNamesAll(c);
      case _ => SessionNamesAll(c);
    }
  }
}
