/** createSpec writes an account, scanValues and assignValues read it back. */
module AccountCodec {
  import opened Collections
  import opened AccountSchema

  // ---------- values ----------

  /** A struct field: a plain value, a pointer to one, or nil. */
  datatype GoValue = Plain(value: Scalar) | Ptr(value: Scalar) | Nil

  type Struct = map<Field, GoValue>

  function ZeroScalar(t: GoType): Scalar {
    match t
    case TTime => VTime(0)
    case TString => VString("")
    case TDocument => VDocument(NilMap)
    case TInt => VInt(0)
    case TInt64 => VInt64(0)
    case TFloat64 => VFloat64(0.0)
    case TBool => VBool(false)
    case TEnum => VEnum("")
  }

  function Zero(f: Field): GoValue {
    if IsPointer(f) then Nil else Plain(ZeroScalar(StructType(f)))
  }

  /** The struct `&Account{}`. */
  function ZeroStruct(): (s: Struct)
    ensures forall f: Field :: f in s && s[f] == Zero(f)
  {
    map f: Field | true :: Zero(f)
  }

  function Wrap(f: Field, v: Scalar): GoValue {
    if IsPointer(f) then Ptr(v) else Plain(v)
  }

  // ---------- writing ----------

  /** The part of a mutation that `createSpec` reads. */
  datatype Mutation = Mutation(
    fields: map<Field, Scalar>,
    proxy: Option<int>,
    parent: Option<int>,
    groups: set<int>,
    children: set<int>,
    usageLogs: set<int>)

  /** The typed setters: a field holds a value of its struct type, and only `createSpec`'s fields can be set. */
  ghost predicate WellTyped(m: Mutation) {
    forall f | f in m.fields :: SpecType(f).Some? && m.fields[f].Type() == StructType(f)
  }

  /** A value as the database stores it. */
  datatype Stored =
    | DbTime(t: int)
    | DbText(s: string)
    | DbInt(i: int)
    | DbFloat(r: real)
    | DbBool(b: bool)
    | DbJson(bytes: seq<byte>)

  /** What a field spec of this column type sends for a value; None when the value is not of that type. */
  function Encode(codec: JsonCodec, t: ColumnType, v: Scalar): Option<Stored> {
    match (t, v)
    case (TypeTime, VTime(x)) => Some(DbTime(x))
    case (TypeString, VString(x)) => Some(DbText(x))
    case (TypeJSON, VDocument(x)) => Some(DbJson(codec.encode(x)))
    case (TypeInt64, VInt64(x)) => Some(DbInt(x))
    case (TypeInt, VInt(x)) => Some(DbInt(x))
    case (TypeFloat64, VFloat64(x)) => Some(DbFloat(x))
    case (TypeBool, VBool(x)) => Some(DbBool(x))
    case (TypeEnum, VEnum(x)) => Some(DbText(x))
    case _ => None
  }

  /** A create spec: the typed columns in order, the foreign keys of M2O edges, and the edge id sets. */
  datatype FieldSpec = FieldSpec(column: Field, t: ColumnType, value: Scalar)

  datatype CreateSpec = CreateSpec(
    columns: seq<FieldSpec>,
    foreignKeys: map<Field, int>,
    groups: set<int>,
    children: set<int>,
    usageLogs: set<int>)

  /** The `if value, ok := mutation.X(); ok` blocks of createSpec, in the order of `fields`. */
  function SpecColumns(fields: seq<Field>, m: map<Field, Scalar>): seq<FieldSpec> {
    if fields == [] then []
    else
      var before := SpecColumns(fields[..|fields| - 1], m);
      var f := fields[|fields| - 1];
      if f in m && SpecType(f).Some? then before + [FieldSpec(f, SpecType(f).value, m[f])] else before
  }

  function SpecNode(fields: seq<Field>, m: map<Field, Scalar>): Struct {
    if fields == [] then ZeroStruct()
    else
      var before := SpecNode(fields[..|fields| - 1], m);
      var f := fields[|fields| - 1];
      if f in m && SpecType(f).Some? then before[f := Wrap(f, m[f])] else before
  }

  function KeyOf(f: Field, id: Option<int>): map<Field, int> {
    match id case Some(k) => map[f := k] case None => map[]
  }

  function WithKey(s: Struct, f: Field, id: Option<int>): Struct {
    match id case Some(k) => s[f := Ptr(VInt64(k))] case None => s
  }

  function BuiltNode(fields: seq<Field>, m: Mutation): Struct {
    WithKey(WithKey(SpecNode(fields, m.fields), ProxyID, m.proxy), ParentAccountID, m.parent)
  }

  function BuiltSpec(fields: seq<Field>, m: Mutation): CreateSpec {
    CreateSpec(SpecColumns(fields, m.fields), KeyOf(ProxyID, m.proxy) + KeyOf(ParentAccountID, m.parent),
               m.groups, m.children, m.usageLogs)
  }

  /** createSpec: the node handed back to the caller and the spec handed to the database. */
  function CreateSpecOf(m: Mutation): (Struct, CreateSpec) {
    (BuiltNode(Columns(), m), BuiltSpec(Columns(), m))
  }

  /** The row an insert of the spec leaves: the columns it lists, NULL elsewhere, and the id the database chose. */
  function Insert(codec: JsonCodec, spec: CreateSpec, id: int): map<Field, Option<Stored>> {
    map f: Field | true ::
      if f == ID then Some(DbInt(id))
      else if f in spec.foreignKeys then Some(DbInt(spec.foreignKeys[f]))
      else match Written(spec.columns, f)
        case Some(c) => Encode(codec, c.t, c.value)
        case None => None
  }

  /** The last field spec of a column. */
  function Written(columns: seq<FieldSpec>, f: Field): Option<FieldSpec> {
    if columns == [] then None
    else if columns[|columns| - 1].column == f then Some(columns[|columns| - 1])
    else Written(columns[..|columns| - 1], f)
  }

  // ---------- reading ----------

  /** A filled scan target. `valid` is absent for raw bytes, where NULL is the empty slice. */
  datatype Cell =
    | CTime(t: Option<int>)
    | CString(s: Option<string>)
    | CInt64(i: Option<int>)
    | CFloat64(r: Option<real>)
    | CBool(b: Option<bool>)
    | CBytes(bytes: seq<byte>)
    | CUnknown
  {
    function Target(): Target {
      match this
      case CTime(_) => NullTime
      case CString(_) => NullString
      case CInt64(_) => NullInt64
      case CFloat64(_) => NullFloat64
      case CBool(_) => NullBool
      case CBytes(_) => RawBytes
      case CUnknown => UnknownType
    }
  }

  /** What the driver scans into a target; None is a scan error. */
  function Scan(t: Target, v: Option<Stored>): Option<Cell> {
    match t
    case NullTime =>
      (match v case None => Some(CTime(None)) case Some(DbTime(x)) => Some(CTime(Some(x))) case _ => None)
    case NullString =>
      (match v case None => Some(CString(None)) case Some(DbText(x)) => Some(CString(Some(x))) case _ => None)
    case NullInt64 =>
      (match v case None => Some(CInt64(None)) case Some(DbInt(x)) => Some(CInt64(Some(x))) case _ => None)
    case NullFloat64 =>
      (match v case None => Some(CFloat64(None)) case Some(DbFloat(x)) => Some(CFloat64(Some(x))) case _ => None)
    case NullBool =>
      (match v case None => Some(CBool(None)) case Some(DbBool(x)) => Some(CBool(Some(x))) case _ => None)
    case RawBytes => (match v case None => Some(CBytes([])) case Some(DbJson(x)) => Some(CBytes(x)) case _ => None)
    case UnknownType => Some(CUnknown)
  }

  /** A selected column: one of the schema's, or something a modifier added. */
  datatype Column = Known(field: Field) | Selected(name: string)

  function TargetOf(c: Column): Target {
    match c case Known(f) => ScanTarget(f) case Selected(_) => UnknownType
  }

  datatype AssignError = MismatchedLengths | UnexpectedType(field: Field) | UnmarshalFailed(field: Field)

  /** What assignValues does with one known column. */
  datatype Effect = Keep | Store(value: GoValue) | Fail(error: AssignError)

  function Effect1(codec: JsonCodec, f: Field, cell: Cell): Effect {
    if cell.Target() != AssignTarget(f) then Fail(UnexpectedType(f))
    else if f == ID then Store(Plain(VInt64(if cell.i.Some? then cell.i.value else 0)))
    else match cell
      case CTime(Some(x)) => Store(Wrap(f, VTime(x)))
      case CString(Some(x)) => Store(Wrap(f, if f == QuotaDimension then VEnum(x) else VString(x)))
      case CInt64(Some(x)) => Store(Wrap(f, if StructType(f) == TInt then VInt(x) else VInt64(x)))
      case CFloat64(Some(x)) => Store(Wrap(f, VFloat64(x)))
      case CBool(Some(x)) => Store(Wrap(f, VBool(x)))
      case CBytes(b) =>
        if b == [] then Keep
        else (match codec.decode(b) case Some(d) => Store(Wrap(f, VDocument(d))) case None => Fail(UnmarshalFailed(f)))
      case _ => Keep
  }

  /** The entity as assignValues sees it: the struct and the values selected beside the schema. */
  datatype Entity = Entity(fields: Struct, selectValues: map<string, Cell>)

  /** How far assignValues got, and the error that stopped it. */
  datatype Assigned = Assigned(entity: Entity, error: Option<AssignError>)

  function AssignColumn(codec: JsonCodec, e: Entity, c: Column, cell: Cell): Assigned {
    match c
    case Selected(name) => Assigned(e.(selectValues := e.selectValues[name := cell]), None)
    case Known(f) =>
      match Effect1(codec, f, cell)
      case Keep => Assigned(e, None)
      case Store(v) => Assigned(e.(fields := e.fields[f := v]), None)
      case Fail(error) => Assigned(e, Some(error))
  }

  function AssignColumns(codec: JsonCodec, e: Entity, columns: seq<Column>, cells: seq<Cell>): Assigned
    requires |columns| <= |cells|
  {
    if columns == [] then Assigned(e, None)
    else
      var n := |columns| - 1;
      var before := AssignColumns(codec, e, columns[..n], cells);
      if before.error.Some? then before else AssignColumn(codec, before.entity, columns[n], cells[n])
  }

  /** The contract of assignValues. */
  function Assign(codec: JsonCodec, e: Entity, columns: seq<Column>, cells: seq<Cell>): Assigned {
    if |cells| < |columns| then Assigned(e, Some(MismatchedLengths)) else AssignColumns(codec, e, columns, cells)
  }

  class Account {
    var fields: Struct
    var selectValues: map<string, Cell>

    constructor ()
      ensures fields == ZeroStruct() && selectValues == map[]
    {
      fields, selectValues := ZeroStruct(), map[];
    }

    method AssignValues(codec: JsonCodec, columns: seq<Column>, cells: seq<Cell>) returns (error: Option<AssignError>)
      modifies this
      ensures Assigned(Entity(fields, selectValues), error)
           == Assign(codec, Entity(old(fields), old(selectValues)), columns, cells)
    {
      if |cells| < |columns| {
        return Some(MismatchedLengths);
      }
      ghost var start := Entity(fields, selectValues);
      for i := 0 to |columns|
        invariant Assigned(Entity(fields, selectValues), None) == AssignColumns(codec, start, columns[..i], cells)
      {
        assert columns[..i + 1][..i] == columns[..i];
        ghost var upTo := AssignColumns(codec, start, columns[..i + 1], cells);
        match columns[i] {
          case Selected(name) => selectValues := selectValues[name := cells[i]];
          case Known(f) =>
            match Effect1(codec, f, cells[i]) {
              case Keep =>
              case Store(v) => fields := fields[f := v];
              case Fail(e) =>
                StopsThere(codec, start, columns, cells, i + 1);
                return Some(e);
            }
        }
      }
      assert columns[..|columns|] == columns;
      return None;
    }
  }

  lemma {:induction false} StopsThere(codec: JsonCodec, e: Entity, columns: seq<Column>, cells: seq<Cell>, k: nat)
    requires k <= |columns| <= |cells|
    requires AssignColumns(codec, e, columns[..k], cells).error.Some?
    ensures AssignColumns(codec, e, columns, cells) == AssignColumns(codec, e, columns[..k], cells)
    decreases |columns|
  {
    if k < |columns| {
      assert columns[..|columns| - 1][..k] == columns[..k];
      StopsThere(codec, e, columns[..|columns| - 1], cells, k);
    } else {
      assert columns[..k] == columns;
    }
  }

  /** A column that stops assignValues: its target is of another type, or its document does not decode. */
  predicate Stops(codec: JsonCodec, c: Column, cell: Cell) {
    c.Known? && (cell.Target() != AssignTarget(c.field)
                 || (cell.CBytes? && cell.bytes != [] && codec.decode(cell.bytes).None?))
  }

  ghost predicate StopsFirst(codec: JsonCodec, columns: seq<Column>, cells: seq<Cell>, i: int)
    requires |columns| <= |cells|
  {
    && 0 <= i < |columns| && columns[i].Known? && Stops(codec, columns[i], cells[i])
    && forall j | 0 <= j < i :: !Stops(codec, columns[j], cells[j])
  }

  lemma {:induction false} NothingStops(codec: JsonCodec, e: Entity, columns: seq<Column>, cells: seq<Cell>)
    requires |columns| <= |cells|
    ensures AssignColumns(codec, e, columns, cells).error.None? <==>
            forall i | 0 <= i < |columns| :: !Stops(codec, columns[i], cells[i])
  {
    hide AssignColumn, Stops;
    if columns != [] {
      var n := |columns| - 1;
      NothingStops(codec, e, columns[..n], cells);
      AssignColumnStops(codec, AssignColumns(codec, e, columns[..n], cells).entity, columns[n], cells[n]);
      assert forall i | 0 <= i < n :: columns[..n][i] == columns[i];
    }
  }

  /** Too few values are an error; else the first column that stops it is, and nothing after it is assigned. */
  lemma AssignErrorMeaning(codec: JsonCodec, e: Entity, columns: seq<Column>, cells: seq<Cell>)
    ensures var r := Assign(codec, e, columns, cells);
            && (r.error == Some(MismatchedLengths) <==> |cells| < |columns|)
            && (|cells| < |columns| ==> r.entity == e)
            && (|cells| >= |columns| ==>
                  && (r.error.None? <==> forall i | 0 <= i < |columns| :: !Stops(codec, columns[i], cells[i]))
                  && forall i | StopsFirst(codec, columns, cells, i) ::
                       && r.entity == AssignColumns(codec, e, columns[..i], cells).entity
                       && r.error == Some(StopError(columns[i], cells[i])))
  {
    hide AssignColumns, Stops, AssignColumn, StopError;
    if |columns| <= |cells| {
      NothingStops(codec, e, columns, cells);
      forall i | StopsFirst(codec, columns, cells, i)
        ensures AssignColumns(codec, e, columns, cells).entity == AssignColumns(codec, e, columns[..i], cells).entity
        ensures AssignColumns(codec, e, columns, cells).error == Some(StopError(columns[i], cells[i]))
      {
        StopsAtFirst(codec, e, columns, cells, i);
      }
      if i :| 0 <= i < |columns| && Stops(codec, columns[i], cells[i]) {
        FirstStop(codec, columns, cells, i);
      }
    }
  }

  function StopError(c: Column, cell: Cell): (error: AssignError)
    requires c.Known?
    ensures error != MismatchedLengths
  {
    if cell.Target() != AssignTarget(c.field) then UnexpectedType(c.field) else UnmarshalFailed(c.field)
  }

  lemma StopsAtFirst(codec: JsonCodec, e: Entity, columns: seq<Column>, cells: seq<Cell>, i: nat)
    requires |columns| <= |cells| && StopsFirst(codec, columns, cells, i)
    ensures columns[i].Known?
    ensures AssignColumns(codec, e, columns, cells).entity == AssignColumns(codec, e, columns[..i], cells).entity
    ensures AssignColumns(codec, e, columns, cells).error == Some(StopError(columns[i], cells[i]))
  {
    assert columns[i].Known?;
    hide Stops, AssignColumn, StopError;
    NothingStops(codec, e, columns[..i], cells);
    var before := AssignColumns(codec, e, columns[..i], cells);
    AssignColumnStops(codec, before.entity, columns[i], cells[i]);
    assert columns[..i + 1][..i] == columns[..i];
    StopsThere(codec, e, columns, cells, i + 1);
  }

  lemma {:induction false} FirstStop(codec: JsonCodec, columns: seq<Column>, cells: seq<Cell>, i: nat)
    requires |columns| <= |cells| && i < |columns| && Stops(codec, columns[i], cells[i])
    ensures exists j :: StopsFirst(codec, columns, cells, j)
  {
    assert columns[i].Known?;
    hide Stops;
    if k :| 0 <= k < i && Stops(codec, columns[k], cells[k]) {
      FirstStop(codec, columns, cells, k);
    } else {
      assert StopsFirst(codec, columns, cells, i);
    }
  }

  lemma AssignColumnStops(codec: JsonCodec, e: Entity, c: Column, cell: Cell)
    ensures AssignColumn(codec, e, c, cell).error.Some? <==> Stops(codec, c, cell)
    ensures Stops(codec, c, cell) ==> AssignColumn(codec, e, c, cell) == Assigned(e, Some(StopError(c, cell)))
  {
    assert AssignTarget(ID) == NullInt64;
    hide AssignTarget, StructType, Wrap;
  }

  lemma AssignColumnSelects(codec: JsonCodec, e: Entity, c: Column, cell: Cell)
    ensures AssignColumn(codec, e, c, cell).entity.selectValues
         == if c.Selected? then e.selectValues[c.name := cell] else e.selectValues
  {
    hide Effect1;
  }

  /** Where x was last, -1 if nowhere. */
  function LastAt<T(==)>(s: seq<T>, x: T): (i: int)
    ensures -1 <= i < |s| && (i >= 0 ==> s[i] == x) && forall j | i < j < |s| :: s[j] != x
  {
    if s == [] then -1 else if s[|s| - 1] == x then |s| - 1 else LastAt(s[..|s| - 1], x)
  }

  /** What was selected beside the columns keeps its last value. */
  lemma {:induction false} SelectedMeaning(
    codec: JsonCodec, e: Entity, columns: seq<Column>, cells: seq<Cell>, name: string)
    requires |columns| <= |cells| && AssignColumns(codec, e, columns, cells).error.None?
    ensures var values, i := AssignColumns(codec, e, columns, cells).entity.selectValues,
                             LastAt(columns, Selected(name));
            && (i >= 0 ==> name in values && values[name] == cells[i])
            && (i < 0 ==> (name in values <==> name in e.selectValues))
  {
    hide AssignColumn;
    if columns != [] {
      var n := |columns| - 1;
      SelectedMeaning(codec, e, columns[..n], cells, name);
      AssignColumnSelects(codec, AssignColumns(codec, e, columns[..n], cells).entity, columns[n], cells[n]);
    }
  }

  /** scanValues: one fresh target per column. */
  method ScanValues(columns: seq<Column>) returns (targets: seq<Target>)
    ensures |targets| == |columns|
    ensures forall i | 0 <= i < |columns| :: targets[i] == TargetOf(columns[i])
    ensures forall i | 0 <= i < |columns| && columns[i].Selected? :: targets[i] == UnknownType
  {
    targets := [];
    for i := 0 to |columns|
      invariant |targets| == i
      invariant forall k | 0 <= k < i :: targets[k] == TargetOf(columns[k])
    {
      targets := targets + [TargetOf(columns[i])];
    }
  }
}
