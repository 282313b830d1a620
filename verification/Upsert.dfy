/** Upserting accounts with UpdateNewValues: which value of each column is left after any number of conflicts. */
module Upsert {
  import opened Collections
  import opened AccountSchema
  import opened AccountCodec
  import opened AccountCreation
  import opened AccountRoundTrip

  type Row = r: map<Field, Option<Stored>> | forall f: Field :: f in r witness (map f: Field | true :: None)

  /** The options of ON CONFLICT that name every inserted column, and the one UpdateNewValues adds for created_at. */
  datatype ConflictOption = ResolveWithNewValues | ResolveWithIgnore | IgnoreCreatedAtIfSet

  /** What a conflict does to a column: the value of the insert, or the one in the table. */
  datatype Action = TakeNew | KeepOld

  /** AccountCreate and AccountCreateBulk, as far as their conflict options go. */
  class UpsertBuilder {
    var conflict: seq<ConflictOption>

    /** OnConflict */
    constructor (options: seq<ConflictOption>)
      ensures conflict == options
    {
      conflict := options;
    }

    /** UpdateNewValues */
    method UpdateNewValues()
      modifies this
      ensures conflict == NewValuesAfter(old(conflict))
    {
      conflict := conflict + [ResolveWithNewValues];
      conflict := conflict + [IgnoreCreatedAtIfSet];
    }

    method Ignore()
      modifies this
      ensures conflict == old(conflict) + [ResolveWithIgnore]
    {
      conflict := conflict + [ResolveWithIgnore];
    }
  }

  function NewValuesAfter(options: seq<ConflictOption>): seq<ConflictOption> {
    options + [ResolveWithNewValues, IgnoreCreatedAtIfSet]
  }

  /** The actions the options settle on for these inserted columns; a later option overrides an earlier one. */
  function Resolve(options: seq<ConflictOption>, columns: set<Field>, createdAtSet: bool): map<Field, Action> {
    if options == [] then map[]
    else
      var before := Resolve(options[..|options| - 1], columns, createdAtSet);
      match options[|options| - 1]
      case ResolveWithNewValues => before + map f | f in columns :: TakeNew
      case ResolveWithIgnore => before + map f | f in columns :: KeepOld
      case IgnoreCreatedAtIfSet => if createdAtSet then before[CreatedAt := KeepOld] else before
  }

  /** The last option that has a say about created_at: IgnoreCreatedAtIfSet has none when it is not set. */
  function LastWord(options: seq<ConflictOption>, createdAtSet: bool): Option<ConflictOption> {
    if options == [] then None
    else
      var last := options[|options| - 1];
      if last.IgnoreCreatedAtIfSet? && !createdAtSet then LastWord(options[..|options| - 1], createdAtSet)
      else Some(last)
  }

  /** An inserted created_at is overwritten exactly when ResolveWithNewValues has the last word. */
  lemma {:induction false} CreatedAtIsOverwrittenIff(
    options: seq<ConflictOption>, columns: set<Field>, createdAtSet: bool)
    requires CreatedAt in columns
    ensures var actions := Resolve(options, columns, createdAtSet);
            && (CreatedAt in actions <==> LastWord(options, createdAtSet).Some?)
            && (CreatedAt in actions ==>
                  (actions[CreatedAt] == TakeNew <==> LastWord(options, createdAtSet) == Some(ResolveWithNewValues)))
  {
    if options != [] {
      CreatedAtIsOverwrittenIff(options[..|options| - 1], columns, createdAtSet);
    }
  }

  /** The bare option that UpdateNewValues is documented to be equivalent to. */
  function BareAfter(options: seq<ConflictOption>): seq<ConflictOption> {
    options + [ResolveWithNewValues]
  }

  /** The two settle on the same actions exactly when created_at is not set, or is kept although not inserted. */
  lemma SameAsResolveWithNewValuesIff(options: seq<ConflictOption>, columns: set<Field>, createdAtSet: bool)
    ensures var bare := Resolve(BareAfter(options), columns, createdAtSet);
            && (Resolve(NewValuesAfter(options), columns, createdAtSet) == bare <==>
                  !createdAtSet || (CreatedAt in bare && bare[CreatedAt] == KeepOld))
            && (CreatedAt in columns ==>
                  (Resolve(NewValuesAfter(options), columns, createdAtSet) == bare <==> !createdAtSet))
  {
    var all := NewValuesAfter(options);
    var bare := Resolve(BareAfter(options), columns, createdAtSet);
    assert all[..|all| - 1] == BareAfter(options);
    assert BareAfter(options)[..|options|] == options;
    assert createdAtSet ==> Resolve(all, columns, createdAtSet) == bare[CreatedAt := KeepOld];
  }

  lemma NewValuesActions(options: seq<ConflictOption>, columns: set<Field>, createdAtSet: bool)
    requires CreatedAt in columns ==> createdAtSet
    ensures var actions := Resolve(NewValuesAfter(options), columns, createdAtSet);
            forall f | f in columns :: f in actions && actions[f] == if f == CreatedAt then KeepOld else TakeNew
  {
    var all := NewValuesAfter(options);
    assert all[..|all| - 1] == options + [ResolveWithNewValues];
    assert all[..|all| - 1][..|options|] == options;
  }

  // ---------- what an insert sends ----------

  /** The columns createSpec sends for a mutation. */
  function Inserted(m: Mutation): set<Field> {
    set f: Field | Source(m, f).Some?
  }

  /** The value it sends for a column other than the id: None is NULL. */
  function Sent(codec: JsonCodec, m: Mutation, f: Field): Option<Stored> {
    match Source(m, f)
    case Some(v) => if SpecType(f).None? then Some(DbInt(v.k)) else Encode(codec, SpecType(f).value, v)
    case None => None
  }

  /** The row of an insert that meets no conflict. */
  function NewRow(codec: JsonCodec, m: Mutation, id: int): Row {
    Insert(codec, CreateSpecOf(m).1, id)
  }

  lemma NewRowMeaning(codec: JsonCodec, m: Mutation, id: int, f: Field)
    ensures NewRow(codec, m, id)[f] == if f == ID then Some(DbInt(id)) else Sent(codec, m, f)
  {
    hide Insert, Source, Encode;
    AllColumns(f);
    RowFromSource(Columns(), codec, m, id, f);
  }

  /** The row after an insert of m, padded with NULL to these columns, conflicts with it. */
  function Upserted(
    codec: JsonCodec, options: seq<ConflictOption>, columns: set<Field>, createdAtSet: bool, row: Row, m: Mutation): Row
  {
    var actions := Resolve(options, columns, createdAtSet);
    map f: Field | true :: if f in actions && actions[f] == TakeNew then NewRow(codec, m, 0)[f] else row[f]
  }

  lemma {:induction false} OnlyInsertedColumnsAreTaken(
    options: seq<ConflictOption>, columns: set<Field>, createdAtSet: bool, f: Field)
    requires f !in columns
    ensures f in Resolve(options, columns, createdAtSet) ==> Resolve(options, columns, createdAtSet)[f] == KeepOld
  {
    if options != [] {
      OnlyInsertedColumnsAreTaken(options[..|options| - 1], columns, createdAtSet, f);
    }
  }

  /** After UpdateNewValues: created_at is kept, every other inserted column is new, everything else is kept. */
  lemma UpsertedMeaning(
    codec: JsonCodec, given: seq<ConflictOption>, columns: set<Field>, createdAtSet: bool,
    row: Row, m: Mutation, f: Field)
    requires ID !in columns && (CreatedAt in columns ==> createdAtSet)
    ensures Upserted(codec, NewValuesAfter(given), columns, createdAtSet, row, m)[f] ==
            if f != CreatedAt && f in columns then Sent(codec, m, f) else row[f]
  {
    hide NewRow, Sent, Resolve;
    if f in columns {
      NewValuesActions(given, columns, createdAtSet);
    } else {
      OnlyInsertedColumnsAreTaken(NewValuesAfter(given), columns, createdAtSet, f);
    }
    NewRowMeaning(codec, m, 0, f);
  }

  lemma {:induction false} BareMeaning(
    codec: JsonCodec, given: seq<ConflictOption>, columns: set<Field>, createdAtSet: bool,
                                       row: Row, m: Mutation, f: Field)
    requires ID !in columns
    ensures Upserted(codec, BareAfter(given), columns, createdAtSet, row, m)[f] ==
            if f in columns then Sent(codec, m, f) else row[f]
  {
    hide NewRow, Sent;
    NewRowMeaning(codec, m, 0, f);
    assert BareAfter(given)[..|given|] == given;
    hide Resolve;
    if f !in columns {
      OnlyInsertedColumnsAreTaken(BareAfter(given), columns, createdAtSet, f);
    } else {
      BareTakes(given, columns, createdAtSet, f);
    }
  }

  lemma BareTakes(given: seq<ConflictOption>, columns: set<Field>, createdAtSet: bool, f: Field)
    requires f in columns
    ensures var actions := Resolve(BareAfter(given), columns, createdAtSet); f in actions && actions[f] == TakeNew
  {
    assert BareAfter(given)[..|given|] == given;
  }

  /** The row after UpdateNewValues, and after the bare option it is documented to be equivalent to. */
  function Kept(codec: JsonCodec, given: seq<ConflictOption>, row: Row, m: Mutation): Row {
    Upserted(codec, NewValuesAfter(given), Inserted(m), CreatedAtSet(m), row, m)
  }

  function Bare(codec: JsonCodec, given: seq<ConflictOption>, row: Row, m: Mutation): Row {
    Upserted(codec, BareAfter(given), Inserted(m), CreatedAtSet(m), row, m)
  }

  lemma KeptAndBare(codec: JsonCodec, given: seq<ConflictOption>, row: Row, m: Mutation, f: Field)
    ensures f != CreatedAt ==> Kept(codec, given, row, m)[f] == Bare(codec, given, row, m)[f]
    ensures Kept(codec, given, row, m)[CreatedAt] == row[CreatedAt]
    ensures Bare(codec, given, row, m)[CreatedAt] ==
            if CreatedAtSet(m) then Sent(codec, m, CreatedAt) else row[CreatedAt]
  {
    hide Upserted, Sent, Inserted, CreatedAtSet, Resolve;
    InsertedMeaning(codec, m, f);
    UpsertedMeaning(codec, given, Inserted(m), CreatedAtSet(m), row, m, f);
    UpsertedMeaning(codec, given, Inserted(m), CreatedAtSet(m), row, m, CreatedAt);
    BareMeaning(codec, given, Inserted(m), CreatedAtSet(m), row, m, f);
    BareMeaning(codec, given, Inserted(m), CreatedAtSet(m), row, m, CreatedAt);
  }

  /** The two rows differ in a column exactly when it is created_at and is set to something else than is stored. */
  lemma RowsDifferIff(codec: JsonCodec, given: seq<ConflictOption>, row: Row, m: Mutation, f: Field)
    ensures Kept(codec, given, row, m)[f] != Bare(codec, given, row, m)[f] <==>
            f == CreatedAt && CreatedAtSet(m) && row[CreatedAt] != Sent(codec, m, CreatedAt)
  {
    hide Kept, Bare, Sent, CreatedAtSet;
    KeptAndBare(codec, given, row, m, f);
  }

  /** A mutation that passes check sets created_at, so the two agree only where the stored one is the same already. */
  lemma CheckedRowsDifferIff(codec: JsonCodec, given: seq<ConflictOption>, row: Row, m: Mutation, rt: Runtime, f: Field)
    requires WellTyped(m) && Validation(rt, m.fields).None?
    ensures CreatedAt in m.fields && m.fields[CreatedAt].VTime?
    ensures Kept(codec, given, row, m)[f] != Bare(codec, given, row, m)[f] <==>
            f == CreatedAt && row[CreatedAt] != Some(DbTime(m.fields[CreatedAt].t))
  {
    hide Validation, Kept, Bare, Encode, Sent;
    CheckedColumnsAreSet(rt, m.fields, CreatedAt);
    RowsDifferIff(codec, given, row, m, f);
    SentCreatedAt(codec, m);
  }

  lemma SentCreatedAt(codec: JsonCodec, m: Mutation)
    requires CreatedAt in m.fields && m.fields[CreatedAt].VTime?
    ensures Sent(codec, m, CreatedAt) == Some(DbTime(m.fields[CreatedAt].t))
  {
  }

  // ---------- one key, many upserts ----------

  /** The builder has a created_at when the conflict options are evaluated. */
  predicate CreatedAtSet(m: Mutation) {
    CreatedAt in m.fields
  }

  /** The row of one key after the first mutation inserted it and each later one conflicted with it. */
  function AfterUpserts(codec: JsonCodec, given: seq<ConflictOption>, ms: seq<Mutation>, id: int): Row
    requires ms != []
  {
    var n := |ms| - 1;
    if n == 0 then NewRow(codec, ms[0], id)
    else Kept(codec, given, AfterUpserts(codec, given, ms[..n], id), ms[n])
  }

  /** The last value sent for a column. */
  function LastSent(codec: JsonCodec, ms: seq<Mutation>, f: Field): Option<Stored> {
    if ms == [] then None
    else
      var n := |ms| - 1;
      if f in Inserted(ms[n]) then Sent(codec, ms[n], f) else LastSent(codec, ms[..n], f)
  }

  lemma InsertedMeaning(codec: JsonCodec, m: Mutation, f: Field)
    ensures ID !in Inserted(m)
    ensures CreatedAt in Inserted(m) <==> CreatedAtSet(m)
    ensures f !in Inserted(m) ==> Sent(codec, m, f) == None
  {
    hide Encode;
  }

  /** The id and created_at are those of the first insert; every other column holds the last value written to it. */
  lemma {:induction false} FirstCreatedAtLastOfTheRest(
    codec: JsonCodec, given: seq<ConflictOption>, ms: seq<Mutation>, id: int, f: Field)
    requires ms != []
    ensures AfterUpserts(codec, given, ms, id)[f] ==
            if f == ID then Some(DbInt(id))
            else if f == CreatedAt then Sent(codec, ms[0], CreatedAt)
            else LastSent(codec, ms, f)
  {
    hide NewRow, Sent, Inserted, Upserted, CreatedAtSet;
    var n := |ms| - 1;
    InsertedMeaning(codec, ms[n], f);
    if n == 0 {
      NewRowMeaning(codec, ms[0], id, f);
      assert LastSent(codec, ms[..0], f) == None;
    } else {
      FirstCreatedAtLastOfTheRest(codec, given, ms[..n], id, f);
      var row := AfterUpserts(codec, given, ms[..n], id);
      UpsertedMeaning(codec, given, Inserted(ms[n]), CreatedAtSet(ms[n]), row, ms[n], f);
    }
  }

  /** The first mutation passed check, so that the created_at that stays is a time, not NULL. */
  lemma CreatedAtStaysATime(codec: JsonCodec, given: seq<ConflictOption>, ms: seq<Mutation>, id: int, rt: Runtime)
    requires ms != [] && WellTyped(ms[0]) && Validation(rt, ms[0].fields).None?
    ensures CreatedAt in ms[0].fields && ms[0].fields[CreatedAt].VTime?
    ensures AfterUpserts(codec, given, ms, id)[CreatedAt] == Some(DbTime(ms[0].fields[CreatedAt].t))
  {
    hide Validation, AfterUpserts;
    CheckedColumnsAreSet(rt, ms[0].fields, CreatedAt);
    FirstCreatedAtLastOfTheRest(codec, given, ms, id, CreatedAt);
  }

  // ---------- a bulk upsert ----------

  predicate SetByAny(ms: seq<Mutation>, f: Field) {
    exists m :: m in ms && f in Inserted(m)
  }

  /** The columns of a batch: every builder's, with NULL where a builder has none. */
  function InsertedByAny(ms: seq<Mutation>): set<Field> {
    set f: Field | SetByAny(ms, f)
  }

  predicate CreatedAtSetByAny(ms: seq<Mutation>) {
    exists m :: m in ms && CreatedAtSet(m)
  }

  /** Row i after a batch in which every builder conflicts with a row of its own. */
  function BulkUpserted(codec: JsonCodec, given: seq<ConflictOption>, rows: seq<Row>, ms: seq<Mutation>, i: nat): Row
    requires i < |ms| == |rows|
  {
    Upserted(codec, NewValuesAfter(given), InsertedByAny(ms), CreatedAtSetByAny(ms), rows[i], ms[i])
  }

  lemma ColumnsOfABatch(codec: JsonCodec, ms: seq<Mutation>, i: nat, f: Field)
    requires i < |ms|
    ensures ID !in InsertedByAny(ms)
    ensures CreatedAt in InsertedByAny(ms) ==> CreatedAtSetByAny(ms)
    ensures f in Inserted(ms[i]) ==> f in InsertedByAny(ms)
  {
    hide Inserted, CreatedAtSet, Sent;
    forall m | m in ms
      ensures ID !in Inserted(m) && (CreatedAt in Inserted(m) <==> CreatedAtSet(m))
    {
      InsertedMeaning(codec, m, f);
    }
  }

  /** Every row keeps its created_at, even of a builder that set none. */
  lemma BulkKeepsCreatedAt(codec: JsonCodec, given: seq<ConflictOption>, rows: seq<Row>, ms: seq<Mutation>, i: nat)
    requires i < |ms| == |rows|
    ensures BulkUpserted(codec, given, rows, ms, i)[CreatedAt] == rows[i][CreatedAt]
  {
    hide Inserted, Sent, CreatedAtSet, Upserted, InsertedByAny, CreatedAtSetByAny;
    ColumnsOfABatch(codec, ms, i, CreatedAt);
    UpsertedMeaning(codec, given, InsertedByAny(ms), CreatedAtSetByAny(ms), rows[i], ms[i], CreatedAt);
  }

  /** A bulk upsert leaves a column as the builder's own upsert would, unless only other builders of the batch set it
    * and it was not NULL: then it becomes NULL.
    */
  lemma BulkIsSingleIff(
    codec: JsonCodec, given: seq<ConflictOption>, rows: seq<Row>, ms: seq<Mutation>, i: nat, f: Field)
    requires i < |ms| == |rows|
    ensures var bulk := BulkUpserted(codec, given, rows, ms, i)[f];
            var single := Kept(codec, given, rows[i], ms[i])[f];
            && (bulk == single <==>
                  !(f != CreatedAt && f in InsertedByAny(ms) && f !in Inserted(ms[i]) && rows[i][f].Some?))
            && (bulk != single ==> bulk == None)
  {
    hide Inserted, Sent, CreatedAtSet, Upserted, InsertedByAny, CreatedAtSetByAny;
    ColumnsOfABatch(codec, ms, i, f);
    InsertedMeaning(codec, ms[i], f);
    UpsertedMeaning(codec, given, InsertedByAny(ms), CreatedAtSetByAny(ms), rows[i], ms[i], f);
    UpsertedMeaning(codec, given, Inserted(ms[i]), CreatedAtSet(ms[i]), rows[i], ms[i], f);
  }
}
