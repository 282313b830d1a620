/** Reading back what was written gives the node createSpec built, for any columns selected, in any order. */
module AccountRoundTrip {
  import opened Collections
  import opened AccountSchema
  import opened AccountCodec

  function Position(f: Field): int {
    match f
    case ID => 0 case CreatedAt => 1 case UpdatedAt => 2 case DeletedAt => 3 case Name => 4 case Notes => 5
    case Platform => 6 case Type => 7 case Credentials => 8 case Extra => 9 case ProxyID => 10
    case ProxyFallbackOriginID => 11 case Concurrency => 12 case LoadFactor => 13 case Priority => 14
    case RateMultiplier => 15 case Status => 16 case ErrorMessage => 17 case LastUsedAt => 18 case ExpiresAt => 19
    case AutoPauseOnExpired => 20 case Schedulable => 21 case RateLimitedAt => 22 case RateLimitResetAt => 23
    case OverloadUntil => 24 case TempUnschedulableUntil => 25 case TempUnschedulableReason => 26
    case SessionWindowStart => 27 case SessionWindowEnd => 28 case SessionWindowStatus => 29
    case ParentAccountID => 30 case QuotaDimension => 31
  }

  lemma AllColumns(f: Field)
    ensures f in Columns()
  {
    assert Columns()[Position(f)] == f;
  }

  /** What the straight-line code of createSpec wrote for a column. */
  lemma {:induction false} SpecWrites(fields: seq<Field>, m: map<Field, Scalar>, f: Field)
    ensures Written(SpecColumns(fields, m), f)
         == if f in fields && f in m && SpecType(f).Some? then Some(FieldSpec(f, SpecType(f).value, m[f])) else None
    ensures f in SpecNode(fields, m)
    ensures SpecNode(fields, m)[f] == if f in fields && f in m && SpecType(f).Some? then Wrap(f, m[f]) else Zero(f)
  {
    hide SpecType, Wrap, Zero;
    if fields != [] {
      SpecWrites(fields[..|fields| - 1], m, f);
      assert fields == fields[..|fields| - 1] + [fields[|fields| - 1]];
    }
  }

  /** A column that reads back: it scans, assigns without error, and gives the node's own value or leaves the zero it
    * has.
    */
  ghost predicate ReadsBack(codec: JsonCodec, row: map<Field, Option<Stored>>, node: Struct, f: Field) {
    && f in row && f in node
    && Scan(ScanTarget(f), row[f]).Some?
    && match Effect1(codec, f, Scan(ScanTarget(f), row[f]).value)
       case Keep => node[f] == Zero(f)
       case Store(v) => v == node[f]
       case Fail(_) => false
  }

  /** The saved node: what createSpec built, with the id the database returned. */
  function SavedNode(m: Mutation, id: int): Struct {
    CreateSpecOf(m).0[ID := Plain(VInt64(id))]
  }

  /** The node holds the id, the targets of its two foreign keys, what the mutation set, and zero values elsewhere. */
  ghost predicate Holds(node: Struct, m: Mutation, id: int) {
    forall f: Field :: f in node && node[f] == Held(m, id, f)
  }

  function Held(m: Mutation, id: int, f: Field): GoValue {
    match f
    case ID => Plain(VInt64(id))
    case ProxyID => (match m.proxy case Some(k) => Ptr(VInt64(k)) case None => Nil)
    case ParentAccountID => (match m.parent case Some(k) => Ptr(VInt64(k)) case None => Nil)
    case _ =>
      if f in m.fields then (if IsPointer(f) then Ptr(m.fields[f]) else Plain(m.fields[f]))
      else if IsPointer(f) then Nil
      else Plain(ZeroScalar(StructType(f)))
  }

  /** What createSpec built holds the mutation's data and, as long as the database gave none, the id 0. */
  lemma BuiltNodeHolds(m: Mutation)
    ensures Holds(CreateSpecOf(m).0, m, 0)
    ensures forall id :: Holds(SavedNode(m, id), m, id)
  {
    hide CreateSpecOf, Held;
    forall f: Field
      ensures f in CreateSpecOf(m).0 && CreateSpecOf(m).0[f] == Held(m, 0, f)
    {
      BuiltFieldIsHeld(m, 0, f);
    }
    forall id, f: Field
      ensures f in SavedNode(m, id) && SavedNode(m, id)[f] == Held(m, id, f)
    {
      BuiltFieldIsHeld(m, id, f);
    }
  }

  lemma BuiltFieldIsHeld(m: Mutation, id: int, f: Field)
    ensures f in CreateSpecOf(m).0
    ensures Held(m, id, f) == if f == ID then Plain(VInt64(id)) else CreateSpecOf(m).0[f]
    ensures f == ID && id == 0 ==> CreateSpecOf(m).0[f] == Held(m, id, f)
  {
    AllColumns(f);
    NodeFromSource(Columns(), m, f);
    HeldIsSource(m, id, f);
    hide BuiltNode, Source, Wrap, Held, Columns;
  }

  lemma HeldIsSource(m: Mutation, id: int, f: Field)
    ensures var source := match Source(m, f) case Some(v) => Wrap(f, v) case None => Zero(f);
            && (f != ID ==> Held(m, id, f) == source)
            && (f == ID ==> source == Plain(VInt64(0)) && Held(m, id, f) == Plain(VInt64(id)))
  {
  }

  /** The zero values of Go's types. */
  lemma ZeroValues()
    ensures ZeroScalar(TTime) == VTime(0) && ZeroScalar(TString) == VString("") && ZeroScalar(TEnum) == VEnum("")
    ensures ZeroScalar(TInt) == VInt(0) && ZeroScalar(TInt64) == VInt64(0) && ZeroScalar(TFloat64) == VFloat64(0.0)
    ensures ZeroScalar(TBool) == VBool(false) && ZeroScalar(TDocument) == VDocument(NilMap)
  {
  }

  /** What createSpec sends: every column that is set, once, the foreign keys, and the ids of the other edges. */
  lemma SpecMeaning(m: Mutation)
    ensures var spec := CreateSpecOf(m).1;
            && (forall c :: c in spec.columns <==>
                  c.column in m.fields && SpecType(c.column) == Some(c.t) && c.value == m.fields[c.column])
            && (forall i, j | 0 <= i < j < |spec.columns| :: spec.columns[i].column != spec.columns[j].column)
            && (forall f: Field :: f in spec.foreignKeys <==>
                  (f == ProxyID && m.proxy.Some?) || (f == ParentAccountID && m.parent.Some?))
            && (m.proxy.Some? ==> spec.foreignKeys[ProxyID] == m.proxy.value)
            && (m.parent.Some? ==> spec.foreignKeys[ParentAccountID] == m.parent.value)
            && spec.groups == m.groups && spec.children == m.children && spec.usageLogs == m.usageLogs
  {
    hide SpecType, Columns;
    forall c
      ensures c in SpecColumns(Columns(), m.fields) <==>
              c.column in m.fields && SpecType(c.column) == Some(c.t) && c.value == m.fields[c.column]
    {
      AllColumns(c.column);
      SpecColumnsMeaning(Columns(), m.fields, c);
    }
    ColumnsOnce();
    SpecColumnsOnce(Columns(), m.fields);
  }

  lemma ColumnsOnce()
    ensures Increasing(Columns(), Position)
  {
    forall i | 0 <= i < |Columns()|
      ensures Position(Columns()[i]) == i
    {
      PositionAt(i);
    }
    hide Columns, Position;
  }

  lemma PositionAt(i: nat)
    requires i < |Columns()|
    ensures Position(Columns()[i]) == i
  {
  }

  lemma {:induction false} SpecColumnsMeaning(fields: seq<Field>, m: map<Field, Scalar>, c: FieldSpec)
    ensures c in SpecColumns(fields, m) <==>
            c.column in fields && c.column in m && SpecType(c.column) == Some(c.t) && c.value == m[c.column]
  {
    hide SpecType;
    if fields != [] {
      var n := |fields| - 1;
      SpecColumnsMeaning(fields[..n], m, c);
      assert fields == fields[..n] + [fields[n]];
    }
  }

  /** The columns of a spec are in the order of the table. */
  lemma {:induction false} SpecColumnsOnce(fields: seq<Field>, m: map<Field, Scalar>)
    requires Increasing(fields, Position)
    ensures forall i, j | 0 <= i < j < |SpecColumns(fields, m)| ::
              Position(SpecColumns(fields, m)[i].column) < Position(SpecColumns(fields, m)[j].column)
  {
    hide SpecType, Position;
    if fields != [] {
      var n := |fields| - 1;
      var before := SpecColumns(fields[..n], m);
      SpecColumnsOnce(fields[..n], m);
      forall i | 0 <= i < |before|
        ensures before[i].column in fields[..n]
      {
        SpecColumnsMeaning(fields[..n], m, before[i]);
      }
    }
  }

  /** The scan target and the Go type that fit a column type. */
  function Fitting(t: ColumnType): (Target, GoType) {
    match t
    case TypeTime => (NullTime, TTime)
    case TypeString => (NullString, TString)
    case TypeJSON => (RawBytes, TDocument)
    case TypeInt64 => (NullInt64, TInt64)
    case TypeInt => (NullInt64, TInt)
    case TypeFloat64 => (NullFloat64, TFloat64)
    case TypeBool => (NullBool, TBool)
    case TypeEnum => (NullString, TEnum)
  }

  /** The struct, createSpec, scanValues and assignValues list the columns with the same types. */
  lemma TablesAgree(f: Field)
    ensures ScanTarget(f) == AssignTarget(f)
    ensures SpecType(f).Some? ==> Fitting(SpecType(f).value) == (ScanTarget(f), StructType(f))
    ensures SpecType(f) == Some(TypeEnum) <==> f == QuotaDimension
    ensures SpecType(f).Some? ==> f != ID
  {
  }

  /** A set column survives being written and read. */
  lemma ScalarReadsBack(codec: JsonCodec, f: Field, v: Scalar)
    requires codec.Lossless()
    requires SpecType(f).Some? && v.Type() == StructType(f)
    ensures var sent := Encode(codec, SpecType(f).value, v);
            && sent.Some?
            && Scan(ScanTarget(f), sent).Some?
            && Effect1(codec, f, Scan(ScanTarget(f), sent).value) == Store(Wrap(f, v))
  {
    TablesAgree(f);
    hide SpecType, StructType, ScanTarget, AssignTarget, Wrap;
    match v
    case VTime(_) =>
    case VString(_) =>
    case VDocument(d) => assert codec.encode(d) != [] && codec.decode(codec.encode(d)) == Some(d);
    case VInt(_) =>
    case VInt64(_) =>
    case VFloat64(_) =>
    case VBool(_) =>
    case VEnum(_) =>
  }

  /** An unset column reads as NULL, which leaves the struct alone. */
  lemma NullReadsBack(codec: JsonCodec, row: map<Field, Option<Stored>>, node: Struct, f: Field)
    requires f != ID
    requires f in row && row[f] == None
    requires f in node && node[f] == Zero(f)
    ensures ReadsBack(codec, row, node, f)
  {
    TablesAgree(f);
    hide ScanTarget, AssignTarget, Zero;
  }

  /** A foreign key set through an edge lands in the pointer column of that edge. */
  lemma KeyReadsBack(codec: JsonCodec, row: map<Field, Option<Stored>>, node: Struct, f: Field, k: int)
    requires f == ProxyID || f == ParentAccountID
    requires f in row && row[f] == Some(DbInt(k))
    requires f in node && node[f] == Wrap(f, VInt64(k))
    ensures ReadsBack(codec, row, node, f)
  {
  }

  /** Where the value of a column comes from, in the row and in the node alike. */
  function Source(m: Mutation, f: Field): Option<Scalar> {
    match f
    case ProxyID => (match m.proxy case Some(k) => Some(VInt64(k)) case None => None)
    case ParentAccountID => (match m.parent case Some(k) => Some(VInt64(k)) case None => None)
    case _ => if f in m.fields && SpecType(f).Some? then Some(m.fields[f]) else None
  }

  lemma NodeFromSource(fields: seq<Field>, m: Mutation, f: Field)
    requires f in fields
    ensures f in BuiltNode(fields, m)
    ensures BuiltNode(fields, m)[f] == match Source(m, f) case Some(v) => Wrap(f, v) case None => Zero(f)
  {
    hide SpecNode;
    SpecWrites(fields, m.fields, f);
  }

  lemma RowFromSource(fields: seq<Field>, codec: JsonCodec, m: Mutation, id: int, f: Field)
    requires f in fields
    ensures f in Insert(codec, BuiltSpec(fields, m), id)
    ensures Insert(codec, BuiltSpec(fields, m), id)[f]
         == if f == ID then Some(DbInt(id))
            else match Source(m, f)
              case Some(v) => if SpecType(f).None? then Some(DbInt(v.k)) else Encode(codec, SpecType(f).value, v)
              case None => None
  {
    hide SpecColumns, Encode;
    SpecWrites(fields, m.fields, f);
  }

  lemma IDReadsBack(codec: JsonCodec, row: map<Field, Option<Stored>>, node: Struct, id: int)
    requires ID in row && row[ID] == Some(DbInt(id))
    requires ID in node && node[ID] == Plain(VInt64(id))
    ensures ReadsBack(codec, row, node, ID)
  {
  }

  lemma SetReadsBack(codec: JsonCodec, row: map<Field, Option<Stored>>, node: Struct, f: Field, v: Scalar)
    requires codec.Lossless()
    requires SpecType(f).Some? && v.Type() == StructType(f)
    requires f in row && row[f] == Encode(codec, SpecType(f).value, v)
    requires f in node && node[f] == Wrap(f, v)
    ensures ReadsBack(codec, row, node, f)
  {
    hide Scan, Effect1, Encode, ScanTarget, SpecType, StructType, Wrap;
    ScalarReadsBack(codec, f, v);
  }

  lemma BuiltReadsBack(fields: seq<Field>, codec: JsonCodec, m: Mutation, id: int, f: Field)
    requires f in fields
    requires codec.Lossless() && WellTyped(m)
    ensures ReadsBack(codec, Insert(codec, BuiltSpec(fields, m), id), BuiltNode(fields, m)[ID := Plain(VInt64(id))], f)
  {
    hide BuiltNode, BuiltSpec, Insert, Encode, Scan, ScanTarget, Effect1, Zero, SpecType, StructType, Source, ReadsBack;
    NodeFromSource(fields, m, f);
    RowFromSource(fields, codec, m, id, f);
    SourceTyped(m, f);
    var row, node := Insert(codec, BuiltSpec(fields, m), id), BuiltNode(fields, m)[ID := Plain(VInt64(id))];
    if f == ID {
      IDReadsBack(codec, row, node, id);
    } else {
      match Source(m, f)
      case None => NullReadsBack(codec, row, node, f);
      case Some(v) =>
        if SpecType(f).None? {
          KeyReadsBack(codec, row, node, f, v.k);
        } else {
          SetReadsBack(codec, row, node, f, v);
        }
    }
  }

  lemma SourceTyped(m: Mutation, f: Field)
    requires WellTyped(m)
    ensures match Source(m, f)
            case Some(v) =>
              if SpecType(f).None? then v.VInt64? && f in [ProxyID, ParentAccountID] && IsPointer(f)
              else v.Type() == StructType(f)
            case None => true
  {
  }

  lemma ColumnReadsBack(codec: JsonCodec, m: Mutation, id: int, f: Field)
    requires codec.Lossless() && WellTyped(m)
    ensures ReadsBack(codec, Insert(codec, CreateSpecOf(m).1, id), SavedNode(m, id), f)
  {
    AllColumns(f);
    BuiltReadsBack(Columns(), codec, m, id, f);
  }

  // ---------- any selection of columns ----------

  /** The cells of a row for the selected columns. */
  ghost predicate CellsOf(columns: seq<Column>, cells: seq<Cell>, row: map<Field, Option<Stored>>) {
    && |cells| == |columns|
    && forall i | 0 <= i < |columns| :: columns[i].Known? ==>
         columns[i].field in row && Scan(ScanTarget(columns[i].field), row[columns[i].field]) == Some(cells[i])
  }

  /** Selected columns take the node's value, others keep what the struct had; order and repetition do not matter. */
  lemma {:induction false} AssignSelection(
    codec: JsonCodec, row: map<Field, Option<Stored>>, node: Struct, columns: seq<Column>, cells: seq<Cell>)
    requires forall f: Field :: f in node && ReadsBack(codec, row, node, f)
    requires CellsOf(columns, cells, row)
    ensures var r := Assign(codec, Entity(ZeroStruct(), map[]), columns, cells);
            && r.error.None?
            && r.entity.fields.Keys == ZeroStruct().Keys
            && forall f: Field :: r.entity.fields[f] == if Known(f) in columns then node[f] else Zero(f)
  {
    hide Scan, ScanTarget, Effect1, Zero;
    if columns != [] {
      var n := |columns| - 1;
      AssignSelection(codec, row, node, columns[..n], cells[..n]);
      PrefixCells(codec, Entity(ZeroStruct(), map[]), columns[..n], cells, n);
      assert columns == columns[..n] + [columns[n]];
      if columns[n].Known? {
        assert ReadsBack(codec, row, node, columns[n].field);
      }
    }
  }

  lemma {:induction false} PrefixCells(codec: JsonCodec, e: Entity, columns: seq<Column>, cells: seq<Cell>, n: nat)
    requires |columns| <= n <= |cells|
    ensures AssignColumns(codec, e, columns, cells[..n]) == AssignColumns(codec, e, columns, cells)
  {
    if columns != [] {
      PrefixCells(codec, e, columns[..|columns| - 1], cells, n);
    }
  }

  /** Create, then read every column: the entity is the saved node, and no column has an unexpected type. */
  lemma CreateReadRoundTrip(codec: JsonCodec, m: Mutation, id: int, columns: seq<Column>, cells: seq<Cell>)
    requires codec.Lossless() && WellTyped(m)
    requires CellsOf(columns, cells, Insert(codec, CreateSpecOf(m).1, id))
    requires forall f: Field :: Known(f) in columns
    ensures var r := Assign(codec, Entity(ZeroStruct(), map[]), columns, cells);
            r.error.None? && r.entity.fields == SavedNode(m, id)
  {
    SavedReadsBack(codec, m, id);
    AssignSelection(codec, Insert(codec, CreateSpecOf(m).1, id), SavedNode(m, id), columns, cells);
  }

  lemma SavedReadsBack(codec: JsonCodec, m: Mutation, id: int)
    requires codec.Lossless() && WellTyped(m)
    ensures forall f: Field :: f in SavedNode(m, id)
                            && ReadsBack(codec, Insert(codec, CreateSpecOf(m).1, id), SavedNode(m, id), f)
  {
    forall f: Field
      ensures f in SavedNode(m, id) && ReadsBack(codec, Insert(codec, CreateSpecOf(m).1, id), SavedNode(m, id), f)
    {
      ColumnReadsBack(codec, m, id, f);
    }
  }
}
