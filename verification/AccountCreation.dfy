/** AccountCreate: the defaults, the checks, and how one guards against a failure of the other. */
module AccountCreation {
  import opened Collections
  import opened AccountSchema
  import opened AccountCodec
  import opened AccountRoundTrip

  /** The package variables of ent/account that the runtime package fills in; None is a nil function. */
  datatype Runtime = Runtime(
    createdAt: Option<int>,
    updatedAt: Option<int>,
    credentials: Option<Document>,
    extra: Option<Document>,
    concurrency: int,
    priority: int,
    rateMultiplier: real,
    status: string,
    autoPauseOnExpired: bool,
    schedulable: bool,
    validName: string -> bool,
    validPlatform: string -> bool,
    validType: string -> bool,
    validStatus: string -> bool,
    validSessionWindowStatus: string -> bool)

  type Fields = map<Field, Scalar>

  // ---------- defaults ----------

  /** The columns `defaults` fills, in its order. */
  const DEFAULTED: seq<Field> := [
    CreatedAt, UpdatedAt, Credentials, Extra, Concurrency, Priority, RateMultiplier, Status,
    AutoPauseOnExpired, Schedulable, QuotaDimension]

  /** The default of a column; None when its default function was never initialized. */
  function DefaultOf(rt: Runtime, f: Field): Option<Scalar> {
    match f
    case CreatedAt => (match rt.createdAt case Some(t) => Some(VTime(t)) case None => None)
    case UpdatedAt => (match rt.updatedAt case Some(t) => Some(VTime(t)) case None => None)
    case Credentials => (match rt.credentials case Some(d) => Some(VDocument(d)) case None => None)
    case Extra => (match rt.extra case Some(d) => Some(VDocument(d)) case None => None)
    case Concurrency => Some(VInt(rt.concurrency))
    case Priority => Some(VInt(rt.priority))
    case RateMultiplier => Some(VFloat64(rt.rateMultiplier))
    case Status => Some(VString(rt.status))
    case AutoPauseOnExpired => Some(VBool(rt.autoPauseOnExpired))
    case Schedulable => Some(VBool(rt.schedulable))
    case QuotaDimension => Some(VEnum("global"))
    case _ => None
  }

  /** The fields after `defaults`, and the column whose default function is missing, if that stopped it. */
  datatype Defaulted = Defaulted(fields: Fields, missing: Option<Field>)

  function Defaults(rt: Runtime, order: seq<Field>, fields: Fields): Defaulted {
    if order == [] then Defaulted(fields, None)
    else
      var f := order[0];
      if f in fields then Defaults(rt, order[1..], fields)
      else match DefaultOf(rt, f)
        case None => Defaulted(fields, Some(f))
        case Some(v) => Defaults(rt, order[1..], fields[f := v])
  }

  /** Defaults only add: what was set stays, and without an error every listed column is set. */
  lemma {:induction false} DefaultsMeaning(rt: Runtime, order: seq<Field>, fields: Fields)
    ensures var r := Defaults(rt, order, fields);
            && (forall f | f in fields :: f in r.fields && r.fields[f] == fields[f])
            && (r.missing.None? ==> forall f | f in order :: f in r.fields)
            && (r.missing.Some? ==> r.missing.value in order && r.missing.value !in r.fields)
            && (r.missing.Some? ==> DefaultOf(rt, r.missing.value).None?)
            && (forall f | f in r.fields && f !in fields :: f in order && DefaultOf(rt, f) == Some(r.fields[f]))
  {
    hide DefaultOf;
    if order != [] {
      var f := order[0];
      if f in fields {
        DefaultsMeaning(rt, order[1..], fields);
      } else if DefaultOf(rt, f).Some? {
        DefaultsMeaning(rt, order[1..], fields[f := DefaultOf(rt, f).value]);
      }
      assert forall g | g in order :: g == f || g in order[1..];
    }
  }

  /** Running defaults again changes nothing and fails in the same way. */
  lemma {:induction false} DefaultsIdempotent(rt: Runtime, order: seq<Field>, fields: Fields)
    ensures var r := Defaults(rt, order, fields); Defaults(rt, order, r.fields) == r
  {
    hide DefaultOf;
    if order != [] {
      var f := order[0];
      if f in fields {
        DefaultsMeaning(rt, order[1..], fields);
        DefaultsIdempotent(rt, order[1..], fields);
      } else if DefaultOf(rt, f).Some? {
        var filled := fields[f := DefaultOf(rt, f).value];
        DefaultsMeaning(rt, order[1..], filled);
        DefaultsIdempotent(rt, order[1..], filled);
      }
    }
  }

  /** A column after defaults: as it was set, else the default. */
  predicate Filled(fields: Fields, after: Fields, f: Field, default: Scalar) {
    f in after && after[f] == if f in fields then fields[f] else default
  }

  /** What defaults leaves when no default function is missing, column by column. */
  lemma DefaultValues(rt: Runtime, fields: Fields)
    ensures var r := Defaults(rt, DEFAULTED, fields);
            && (r.missing.None? <==>
                  && (CreatedAt in fields || rt.createdAt.Some?) && (UpdatedAt in fields || rt.updatedAt.Some?)
                  && (Credentials in fields || rt.credentials.Some?) && (Extra in fields || rt.extra.Some?))
            && (r.missing.None? ==>
                  && (CreatedAt in r.fields && UpdatedAt in r.fields && Credentials in r.fields && Extra in r.fields)
                  && (CreatedAt !in fields ==> r.fields[CreatedAt] == VTime(rt.createdAt.value))
                  && (UpdatedAt !in fields ==> r.fields[UpdatedAt] == VTime(rt.updatedAt.value))
                  && (Credentials !in fields ==> r.fields[Credentials] == VDocument(rt.credentials.value))
                  && (Extra !in fields ==> r.fields[Extra] == VDocument(rt.extra.value))
                  && Filled(fields, r.fields, Concurrency, VInt(rt.concurrency))
                  && Filled(fields, r.fields, Priority, VInt(rt.priority))
                  && Filled(fields, r.fields, RateMultiplier, VFloat64(rt.rateMultiplier))
                  && Filled(fields, r.fields, Status, VString(rt.status))
                  && Filled(fields, r.fields, AutoPauseOnExpired, VBool(rt.autoPauseOnExpired))
                  && Filled(fields, r.fields, Schedulable, VBool(rt.schedulable))
                  && Filled(fields, r.fields, QuotaDimension, VEnum("global")))
            && (forall f | f in fields :: f in r.fields && r.fields[f] == fields[f])
            && (forall f | f in r.fields :: f in fields || f in DEFAULTED)
  {
    DefaultsMeaning(rt, DEFAULTED, fields);
    ElevenDefaulted();
    PlainDefaults(rt);
    MissingDefault(rt);
    hide Defaults, DEFAULTED, DefaultOf;
  }

  /** Only four defaults come from functions, which may be missing. */
  lemma MissingDefault(rt: Runtime)
    ensures forall f | f in DEFAULTED && DefaultOf(rt, f).None? :: f in {CreatedAt, UpdatedAt, Credentials, Extra}
    ensures DefaultOf(rt, CreatedAt) == if rt.createdAt.Some? then Some(VTime(rt.createdAt.value)) else None
    ensures DefaultOf(rt, UpdatedAt) == if rt.updatedAt.Some? then Some(VTime(rt.updatedAt.value)) else None
    ensures DefaultOf(rt, Credentials) == if rt.credentials.Some? then Some(VDocument(rt.credentials.value)) else None
    ensures DefaultOf(rt, Extra) == if rt.extra.Some? then Some(VDocument(rt.extra.value)) else None
  {
  }

  lemma PlainDefaults(rt: Runtime)
    ensures DefaultOf(rt, Concurrency) == Some(VInt(rt.concurrency))
    ensures DefaultOf(rt, Priority) == Some(VInt(rt.priority))
    ensures DefaultOf(rt, RateMultiplier) == Some(VFloat64(rt.rateMultiplier))
    ensures DefaultOf(rt, Status) == Some(VString(rt.status))
    ensures DefaultOf(rt, AutoPauseOnExpired) == Some(VBool(rt.autoPauseOnExpired))
    ensures DefaultOf(rt, Schedulable) == Some(VBool(rt.schedulable))
    ensures DefaultOf(rt, QuotaDimension) == Some(VEnum("global"))
  {
  }

  lemma ElevenDefaulted()
    ensures CreatedAt in DEFAULTED && UpdatedAt in DEFAULTED && Credentials in DEFAULTED && Extra in DEFAULTED
    ensures Concurrency in DEFAULTED && Priority in DEFAULTED && RateMultiplier in DEFAULTED && Status in DEFAULTED
    ensures AutoPauseOnExpired in DEFAULTED && Schedulable in DEFAULTED && QuotaDimension in DEFAULTED
  {
    assert DEFAULTED[0] == CreatedAt && DEFAULTED[1] == UpdatedAt && DEFAULTED[2] == Credentials;
    assert DEFAULTED[3] == Extra && DEFAULTED[4] == Concurrency && DEFAULTED[5] == Priority;
    assert DEFAULTED[6] == RateMultiplier && DEFAULTED[7] == Status && DEFAULTED[8] == AutoPauseOnExpired;
    assert DEFAULTED[9] == Schedulable && DEFAULTED[10] == QuotaDimension;
  }

  // ---------- check ----------

  datatype Check = Require(field: Field) | Validate(field: Field)

  /** The statements of `check`, in order. */
  const CHECKS: seq<Check> := [
    Require(CreatedAt), Require(UpdatedAt), Require(Name), Validate(Name), Require(Platform), Validate(Platform),
    Require(Type), Validate(Type), Require(Credentials), Require(Extra), Require(Concurrency), Require(Priority),
    Require(RateMultiplier), Require(Status), Validate(Status), Require(AutoPauseOnExpired), Require(Schedulable),
    Validate(SessionWindowStatus), Require(QuotaDimension), Validate(QuotaDimension)]

  predicate Valid(rt: Runtime, f: Field, v: Scalar) {
    match (f, v)
    case (Name, VString(s)) => rt.validName(s)
    case (Platform, VString(s)) => rt.validPlatform(s)
    case (Type, VString(s)) => rt.validType(s)
    case (Status, VString(s)) => rt.validStatus(s)
    case (SessionWindowStatus, VString(s)) => rt.validSessionWindowStatus(s)
    case (QuotaDimension, VEnum(s)) => s == "global" || s == "spark"
    case _ => true
  }

  predicate Passes(rt: Runtime, fields: Fields, c: Check) {
    match c
    case Require(f) => f in fields
    case Validate(f) => f in fields ==> Valid(rt, f, fields[f])
  }

  /** The ValidationError of the first check that fails. */
  function CheckError(rt: Runtime, checks: seq<Check>, fields: Fields): Option<Check> {
    if checks == [] then None
    else if Passes(rt, fields, checks[0]) then CheckError(rt, checks[1..], fields)
    else Some(checks[0])
  }

  /** AccountCreate.check. */
  function Validation(rt: Runtime, fields: Fields): Option<Check> {
    CheckError(rt, CHECKS, fields)
  }

  lemma {:induction false} CheckErrorMeaning(rt: Runtime, checks: seq<Check>, fields: Fields)
    ensures CheckError(rt, checks, fields).None? <==> forall c | c in checks :: Passes(rt, fields, c)
    ensures CheckError(rt, checks, fields).Some? ==>
              exists i :: FirstFailure(rt, checks, fields, i) && CheckError(rt, checks, fields) == Some(checks[i])
  {
    hide Passes;
    if checks != [] {
      var rest := checks[1..];
      CheckErrorMeaning(rt, rest, fields);
      assert checks == [checks[0]] + rest;
      if !Passes(rt, fields, checks[0]) {
        assert checks[0] in checks && FirstFailure(rt, checks, fields, 0);
      } else if CheckError(rt, rest, fields).Some? {
        var i :| FirstFailure(rt, rest, fields, i) && CheckError(rt, rest, fields) == Some(rest[i]);
        assert FirstFailure(rt, checks, fields, i + 1);
      }
    }
  }

  /** The values that a validator looks at satisfy it; a column that is not set is not looked at. */
  ghost predicate ValuesAreValid(rt: Runtime, fields: Fields) {
    && (Name in fields && fields[Name].VString? ==> rt.validName(fields[Name].s))
    && (Platform in fields && fields[Platform].VString? ==> rt.validPlatform(fields[Platform].s))
    && (Type in fields && fields[Type].VString? ==> rt.validType(fields[Type].s))
    && (Status in fields && fields[Status].VString? ==> rt.validStatus(fields[Status].s))
    && (SessionWindowStatus in fields && fields[SessionWindowStatus].VString? ==>
          rt.validSessionWindowStatus(fields[SessionWindowStatus].s))
    && (QuotaDimension in fields && fields[QuotaDimension].VEnum? ==> fields[QuotaDimension].e in ["global", "spark"])
  }

  const VALIDATED: seq<Field> := [Name, Platform, Type, Status, SessionWindowStatus, QuotaDimension]

  /** check requires the columns that are not NULL, the id aside, and validates these six. */
  lemma ChecksMeaning(c: Check)
    ensures c in CHECKS <==> match c case Require(f) => f != ID && !IsPointer(f) case Validate(f) => f in VALIDATED
  {
    match c
    case Require(f) =>
      if f != ID && !IsPointer(f) {
        RequiredColumns(f);
      }
    case Validate(f) =>
      assert CHECKS[3] == Validate(Name) && CHECKS[5] == Validate(Platform) && CHECKS[7] == Validate(Type);
      assert CHECKS[14] == Validate(Status) && CHECKS[17] == Validate(SessionWindowStatus);
      assert CHECKS[19] == Validate(QuotaDimension);
  }

  /** What a mutation has to look like to be created. */
  lemma ValidationMeaning(rt: Runtime, fields: Fields)
    ensures Validation(rt, fields).None? <==>
            (forall f: Field | f != ID && !IsPointer(f) :: f in fields) && ValuesAreValid(rt, fields)
  {
    CheckErrorMeaning(rt, CHECKS, fields);
    ValidatedMeaning(rt, fields);
    hide CHECKS, VALIDATED, IsPointer, Valid, ValuesAreValid;
    if Validation(rt, fields).None? {
      forall f: Field | f != ID && !IsPointer(f)
        ensures f in fields
      {
        ChecksMeaning(Require(f));
        assert Passes(rt, fields, Require(f));
      }
      forall f | f in VALIDATED
        ensures Passes(rt, fields, Validate(f))
      {
        ChecksMeaning(Validate(f));
      }
    }
    if (forall f: Field | f != ID && !IsPointer(f) :: f in fields) && ValuesAreValid(rt, fields) {
      forall c | c in CHECKS
        ensures Passes(rt, fields, c)
      {
        ChecksMeaning(c);
      }
    }
  }

  lemma ValidatedMeaning(rt: Runtime, fields: Fields)
    ensures (forall f | f in VALIDATED :: Passes(rt, fields, Validate(f))) <==> ValuesAreValid(rt, fields)
  {
    SixPass(rt, fields);
    hide VALIDATED;
  }

  lemma SixPass(rt: Runtime, fields: Fields)
    ensures (forall f | f in VALIDATED :: Passes(rt, fields, Validate(f))) <==>
            && Passes(rt, fields, Validate(Name)) && Passes(rt, fields, Validate(Platform))
            && Passes(rt, fields, Validate(Type)) && Passes(rt, fields, Validate(Status))
            && Passes(rt, fields, Validate(SessionWindowStatus)) && Passes(rt, fields, Validate(QuotaDimension))
  {
    hide Passes;
    assert Name in VALIDATED && Platform in VALIDATED && Type in VALIDATED && Status in VALIDATED;
    assert SessionWindowStatus in VALIDATED && QuotaDimension in VALIDATED;
  }

  /** The place of a check: that of its column among the account's columns, the requirement first. */
  function Rank(c: Check): int {
    match c case Require(f) => 2 * Position(f) case Validate(f) => 2 * Position(f) + 1
  }

  const RANKS := [2, 4, 8, 9, 12, 13, 14, 15, 16, 18, 24, 28, 30, 32, 33, 40, 42, 59, 62, 63]

  /** The checks go through the columns in their order, and a column is required before it is validated. */
  lemma ChecksInColumnOrder()
    ensures Increasing(CHECKS, Rank)
  {
    forall i | 0 <= i < |CHECKS|
      ensures Rank(CHECKS[i]) == RANKS[i]
    {
      RankAt(i);
    }
    RanksIncrease();
    hide CHECKS, RANKS, Rank;
  }

  lemma RankAt(i: nat)
    requires i < |CHECKS|
    ensures i < |RANKS| && Rank(CHECKS[i]) == RANKS[i]
  {
  }

  lemma RanksIncrease()
    ensures forall i, j | 0 <= i < j < |RANKS| :: RANKS[i] < RANKS[j]
  {
  }

  /** checks[i] is the first check that fails. */
  ghost predicate FirstFailure(rt: Runtime, checks: seq<Check>, fields: Fields, i: int) {
    && 0 <= i < |checks| && !Passes(rt, fields, checks[i])
    && forall j | 0 <= j < i :: Passes(rt, fields, checks[j])
  }

  /** Every column that `defaults` fills is one that `check` requires. */
  lemma DefaultedAreRequired(f: Field)
    requires f in DEFAULTED
    ensures Require(f) in CHECKS
  {
    assert CHECKS[0] == Require(CreatedAt) && CHECKS[1] == Require(UpdatedAt) && CHECKS[8] == Require(Credentials)
        && CHECKS[9] == Require(Extra) && CHECKS[10] == Require(Concurrency) && CHECKS[11] == Require(Priority)
        && CHECKS[12] == Require(RateMultiplier) && CHECKS[13] == Require(Status)
        && CHECKS[15] == Require(AutoPauseOnExpired) && CHECKS[16] == Require(Schedulable)
        && CHECKS[18] == Require(QuotaDimension);
  }

  /** AccountCreate.Save before the insert: an error of defaults is returned, then check runs. */
  predicate SingleAccepts(rt: Runtime, fields: Fields) {
    var d := Defaults(rt, DEFAULTED, fields);
    d.missing.None? && Validation(rt, d.fields).None?
  }

  /** AccountCreateBulk.Save before the insert: the error of defaults is dropped, then check runs. */
  predicate BulkAccepts(rt: Runtime, fields: Fields) {
    Validation(rt, Defaults(rt, DEFAULTED, fields).fields).None?
  }

  /** Dropping the error of defaults accepts nothing more: check fails on the column that was left unset. */
  lemma BulkAcceptsWhatSingleAccepts(rt: Runtime, fields: Fields)
    ensures Defaults(rt, DEFAULTED, fields).missing.Some? ==>
              Validation(rt, Defaults(rt, DEFAULTED, fields).fields).Some?
    ensures BulkAccepts(rt, fields) <==> SingleAccepts(rt, fields)
  {
    var d := Defaults(rt, DEFAULTED, fields);
    DefaultsMeaning(rt, DEFAULTED, fields);
    CheckErrorMeaning(rt, CHECKS, d.fields);
    if d.missing.Some? {
      DefaultedAreRequired(d.missing.value);
      assert !Passes(rt, d.fields, Require(d.missing.value));
    }
  }

  /** A mutation that passes check sets every column that is NOT NULL; the id comes from the database. */
  lemma CheckedColumnsAreSet(rt: Runtime, fields: Fields, f: Field)
    requires Validation(rt, fields).None?
    requires f != ID && !IsPointer(f)
    ensures f in fields
  {
    CheckErrorMeaning(rt, CHECKS, fields);
    RequiredColumns(f);
    assert Passes(rt, fields, Require(f));
  }

  function RequiredAt(f: Field): nat {
    match f
    case CreatedAt => 0 case UpdatedAt => 1 case Name => 2 case Platform => 4 case Type => 6 case Credentials => 8
    case Extra => 9 case Concurrency => 10 case Priority => 11 case RateMultiplier => 12 case Status => 13
    case AutoPauseOnExpired => 15 case Schedulable => 16 case QuotaDimension => 18
    case _ => 0
  }

  lemma RequiredColumns(f: Field)
    requires f != ID && !IsPointer(f)
    ensures Require(f) in CHECKS
  {
    assert CHECKS[RequiredAt(f)] == Require(f);
  }
}
