/** The account columns as they are declared, written and read: one table per place in the code that lists them. */
module AccountSchema {
  import opened Collections

  datatype Field =
    | ID | CreatedAt | UpdatedAt | DeletedAt | Name | Notes | Platform | Type | Credentials | Extra
    | ProxyID | ProxyFallbackOriginID | Concurrency | LoadFactor | Priority | RateMultiplier | Status
    | ErrorMessage | LastUsedAt | ExpiresAt | AutoPauseOnExpired | Schedulable | RateLimitedAt
    | RateLimitResetAt | OverloadUntil | TempUnschedulableUntil | TempUnschedulableReason
    | SessionWindowStart | SessionWindowEnd | SessionWindowStatus | ParentAccountID | QuotaDimension

  /** account.Columns, in order. */
  function Columns(): seq<Field> {
    [ID, CreatedAt, UpdatedAt, DeletedAt, Name, Notes, Platform, Type, Credentials, Extra,
     ProxyID, ProxyFallbackOriginID, Concurrency, LoadFactor, Priority, RateMultiplier, Status,
     ErrorMessage, LastUsedAt, ExpiresAt, AutoPauseOnExpired, Schedulable, RateLimitedAt,
     RateLimitResetAt, OverloadUntil, TempUnschedulableUntil, TempUnschedulableReason,
     SessionWindowStart, SessionWindowEnd, SessionWindowStatus, ParentAccountID, QuotaDimension]
  }

  newtype byte = x: int | 0 <= x < 256

  /** A Go map[string]interface{}; its values are opaque. */
  datatype Document = NilMap | Entries(entries: map<string, string>)

  /** encoding/json restricted to documents. */
  datatype JsonCodec = JsonCodec(encode: Document -> seq<byte>, decode: seq<byte> -> Option<Document>) {
    ghost predicate Lossless() {
      forall d :: encode(d) != [] && decode(encode(d)) == Some(d)
    }
  }

  /** The Go types a column can have in the struct, pointers aside. */
  datatype GoType = TTime | TString | TDocument | TInt | TInt64 | TFloat64 | TBool | TEnum

  datatype Scalar =
    | VTime(t: int)
    | VString(s: string)
    | VDocument(d: Document)
    | VInt(i: int)
    | VInt64(k: int)
    | VFloat64(r: real)
    | VBool(b: bool)
    | VEnum(e: string)
  {
    function Type(): GoType {
      match this
      case VTime(_) => TTime
      case VString(_) => TString
      case VDocument(_) => TDocument
      case VInt(_) => TInt
      case VInt64(_) => TInt64
      case VFloat64(_) => TFloat64
      case VBool(_) => TBool
      case VEnum(_) => TEnum
    }
  }

  /** The struct declaration: the type of a column ... */
  function StructType(f: Field): GoType {
    match f
    case ID | ProxyID | ProxyFallbackOriginID | ParentAccountID => TInt64
    case CreatedAt | UpdatedAt | DeletedAt | LastUsedAt | ExpiresAt | RateLimitedAt | RateLimitResetAt
       | OverloadUntil | TempUnschedulableUntil | SessionWindowStart | SessionWindowEnd => TTime
    case Name | Notes | Platform | Type | Status | ErrorMessage | TempUnschedulableReason
       | SessionWindowStatus => TString
    case Credentials | Extra => TDocument
    case Concurrency | LoadFactor | Priority => TInt
    case RateMultiplier => TFloat64
    case AutoPauseOnExpired | Schedulable => TBool
    case QuotaDimension => TEnum
  }

  /** ... and whether it is a pointer, so that NULL can be told from the zero value. */
  predicate IsPointer(f: Field) {
    match f
    case DeletedAt | Notes | ProxyID | ProxyFallbackOriginID | LoadFactor | ErrorMessage | LastUsedAt | ExpiresAt
       | RateLimitedAt | RateLimitResetAt | OverloadUntil | TempUnschedulableUntil | TempUnschedulableReason
       | SessionWindowStart | SessionWindowEnd | SessionWindowStatus | ParentAccountID => true
    case _ => false
  }

  /** The columns `createSpec` takes from the mutation's fields, and the column type it gives each.
    * The id is never set and the two foreign keys come from edges.
    */
  datatype ColumnType = TypeTime | TypeString | TypeJSON | TypeInt64 | TypeInt | TypeFloat64 | TypeBool | TypeEnum

  function SpecType(f: Field): Option<ColumnType> {
    match f
    case CreatedAt => Some(TypeTime)
    case UpdatedAt => Some(TypeTime)
    case DeletedAt => Some(TypeTime)
    case Name => Some(TypeString)
    case Notes => Some(TypeString)
    case Platform => Some(TypeString)
    case Type => Some(TypeString)
    case Credentials => Some(TypeJSON)
    case Extra => Some(TypeJSON)
    case ProxyFallbackOriginID => Some(TypeInt64)
    case Concurrency => Some(TypeInt)
    case LoadFactor => Some(TypeInt)
    case Priority => Some(TypeInt)
    case RateMultiplier => Some(TypeFloat64)
    case Status => Some(TypeString)
    case ErrorMessage => Some(TypeString)
    case LastUsedAt => Some(TypeTime)
    case ExpiresAt => Some(TypeTime)
    case AutoPauseOnExpired => Some(TypeBool)
    case Schedulable => Some(TypeBool)
    case RateLimitedAt => Some(TypeTime)
    case RateLimitResetAt => Some(TypeTime)
    case OverloadUntil => Some(TypeTime)
    case TempUnschedulableUntil => Some(TypeTime)
    case TempUnschedulableReason => Some(TypeString)
    case SessionWindowStart => Some(TypeTime)
    case SessionWindowEnd => Some(TypeTime)
    case SessionWindowStatus => Some(TypeString)
    case QuotaDimension => Some(TypeEnum)
    case ID | ProxyID | ParentAccountID => None
  }

  /** The scan targets of database/sql: a nullable of one type, raw bytes, or a catch-all. */
  datatype Target = NullTime | NullString | NullInt64 | NullFloat64 | NullBool | RawBytes | UnknownType

  /** The target `scanValues` allocates for a column. */
  function ScanTarget(f: Field): Target {
    match f
    case Credentials | Extra => RawBytes
    case AutoPauseOnExpired | Schedulable => NullBool
    case RateMultiplier => NullFloat64
    case ID | ProxyID | ProxyFallbackOriginID | Concurrency | LoadFactor | Priority | ParentAccountID => NullInt64
    case Name | Notes | Platform | Type | Status | ErrorMessage | TempUnschedulableReason
       | SessionWindowStatus | QuotaDimension => NullString
    case CreatedAt | UpdatedAt | DeletedAt | LastUsedAt | ExpiresAt | RateLimitedAt | RateLimitResetAt
       | OverloadUntil | TempUnschedulableUntil | SessionWindowStart | SessionWindowEnd => NullTime
  }

  /** The target `assignValues` asserts before it uses a column. */
  function AssignTarget(f: Field): Target {
    match f
    case ID => NullInt64
    case CreatedAt => NullTime
    case UpdatedAt => NullTime
    case DeletedAt => NullTime
    case Name => NullString
    case Notes => NullString
    case Platform => NullString
    case Type => NullString
    case Credentials => RawBytes
    case Extra => RawBytes
    case ProxyID => NullInt64
    case ProxyFallbackOriginID => NullInt64
    case Concurrency => NullInt64
    case LoadFactor => NullInt64
    case Priority => NullInt64
    case RateMultiplier => NullFloat64
    case Status => NullString
    case ErrorMessage => NullString
    case LastUsedAt => NullTime
    case ExpiresAt => NullTime
    case AutoPauseOnExpired => NullBool
    case Schedulable => NullBool
    case RateLimitedAt => NullTime
    case RateLimitResetAt => NullTime
    case OverloadUntil => NullTime
    case TempUnschedulableUntil => NullTime
    case TempUnschedulableReason => NullString
    case SessionWindowStart => NullTime
    case SessionWindowEnd => NullTime
    case SessionWindowStatus => NullString
    case ParentAccountID => NullInt64
    case QuotaDimension => NullString
  }
}
