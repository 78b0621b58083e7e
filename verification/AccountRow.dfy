/** The account entity: its columns, and the tables of account.go that EntityRow takes. */
module AccountRow {
  import opened Prelude
  import opened EntityRow

  /** The column constants of the account package; Other is a column outside the table. */
  datatype Column =
    | ID | CreatedAt | UpdatedAt | DeletedAt | Name | Notes | Platform | AccountType | Credentials | Extra
    | ProxyID | Concurrency | LoadFactor | Priority | RateMultiplier | Status | ErrorMessage | LastUsedAt
    | ExpiresAt | AutoPauseOnExpired | Schedulable | RateLimitedAt | RateLimitResetAt | OverloadUntil
    | TempUnschedulableUntil | TempUnschedulableReason | SessionWindowStart | SessionWindowEnd
    | SessionWindowStatus | Other(name: string)

  /** account.Columns */
  const COLUMNS: seq<Column> := [
    ID, CreatedAt, UpdatedAt, DeletedAt, Name, Notes, Platform, AccountType, Credentials, Extra,
    ProxyID, Concurrency, LoadFactor, Priority, RateMultiplier, Status, ErrorMessage, LastUsedAt,
    ExpiresAt, AutoPauseOnExpired, Schedulable, RateLimitedAt, RateLimitResetAt, OverloadUntil,
    TempUnschedulableUntil, TempUnschedulableReason, SessionWindowStart, SessionWindowEnd,
    SessionWindowStatus]

  /** The switch of scanValues. */
  function ScanKind(c: Column): Kind {
    match c
    case Credentials | Extra => Bytes
    case AutoPauseOnExpired | Schedulable => NullBool
    case RateMultiplier => NullFloat64
    case ID | ProxyID | Concurrency | LoadFactor | Priority => NullInt64
    case Name | Notes | Platform | AccountType | Status | ErrorMessage | TempUnschedulableReason
        | SessionWindowStatus =>
      NullString
    case CreatedAt | UpdatedAt | DeletedAt | LastUsedAt | ExpiresAt | RateLimitedAt | RateLimitResetAt | OverloadUntil
      | TempUnschedulableUntil | SessionWindowStart | SessionWindowEnd => NullTime
    case Other(_) => UnknownType
  }

  /** The type each case of assignValues asserts; the default case takes anything. */
  function AssertedKind(c: Column): Option<Kind> {
    match c
    case ID => Some(NullInt64)
    case CreatedAt => Some(NullTime)
    case UpdatedAt => Some(NullTime)
    case DeletedAt => Some(NullTime)
    case Name => Some(NullString)
    case Notes => Some(NullString)
    case Platform => Some(NullString)
    case AccountType => Some(NullString)
    case Credentials => Some(Bytes)
    case Extra => Some(Bytes)
    case ProxyID => Some(NullInt64)
    case Concurrency => Some(NullInt64)
    case LoadFactor => Some(NullInt64)
    case Priority => Some(NullInt64)
    case RateMultiplier => Some(NullFloat64)
    case Status => Some(NullString)
    case ErrorMessage => Some(NullString)
    case LastUsedAt => Some(NullTime)
    case ExpiresAt => Some(NullTime)
    case AutoPauseOnExpired => Some(NullBool)
    case Schedulable => Some(NullBool)
    case RateLimitedAt => Some(NullTime)
    case RateLimitResetAt => Some(NullTime)
    case OverloadUntil => Some(NullTime)
    case TempUnschedulableUntil => Some(NullTime)
    case TempUnschedulableReason => Some(NullString)
    case SessionWindowStart => Some(NullTime)
    case SessionWindowEnd => Some(NullTime)
    case SessionWindowStatus => Some(NullString)
    case Other(_) => None
  }

  /** The pointer fields of the struct. */
  predicate IsPointer(c: Column) {
    match c
    case DeletedAt | Notes | ProxyID | LoadFactor | ErrorMessage | LastUsedAt | ExpiresAt => true
    case RateLimitedAt | RateLimitResetAt | OverloadUntil | TempUnschedulableUntil => true
    case TempUnschedulableReason | SessionWindowStart | SessionWindowEnd | SessionWindowStatus => true
    case _ => false
  }

  /** The zero value of a plain field. */
  function ZeroOf(c: Column): Value {
    match c
    case Credentials | Extra => Map(NilMap)
    case AutoPauseOnExpired | Schedulable => Bool(false)
    case RateMultiplier => Float(0.0)
    case CreatedAt | UpdatedAt => Time(0)
    case ID | Concurrency | Priority => Int(0)
    case _ => Str("")
  }

  const ACCOUNT: Schema<Column> := Schema(ScanKind, AssertedKind, IsPointer, ZeroOf, Some(ID))

  /** assignValues never meets a holder of an unexpected type in what scanValues made. */
  lemma AccountAgrees()
    ensures Agrees(ACCOUNT)
  {
    forall c: Column ensures AssertedKind(c).Some? ==> AssertedKind(c) == Some(ScanKind(c)) {
    }
  }

  /** Where a column of the table stands in COLUMNS. */
  function Position(c: Column): (k: nat)
    ensures !c.Other? ==> k < |COLUMNS| && COLUMNS[k] == c
  {
    match c
    case ID => 0 case CreatedAt => 1 case UpdatedAt => 2 case DeletedAt => 3 case Name => 4
    case Notes => 5 case Platform => 6 case AccountType => 7 case Credentials => 8 case Extra => 9
    case ProxyID => 10 case Concurrency => 11 case LoadFactor => 12 case Priority => 13
    case RateMultiplier => 14 case Status => 15 case ErrorMessage => 16 case LastUsedAt => 17
    case ExpiresAt => 18 case AutoPauseOnExpired => 19 case Schedulable => 20 case RateLimitedAt => 21
    case RateLimitResetAt => 22 case OverloadUntil => 23 case TempUnschedulableUntil => 24
    case TempUnschedulableReason => 25 case SessionWindowStart => 26 case SessionWindowEnd => 27
    case SessionWindowStatus => 28
    case Other(_) => |COLUMNS|
  }

  lemma InTable(c: Column)
    requires !c.Other?
    ensures c in COLUMNS
  {
    assert COLUMNS[Position(c)] == c;
  }

  lemma OnlyKnown(c: Column)
    requires c in COLUMNS
    ensures !c.Other?
  {
  }

  lemma TableAsserted()
    ensures forall c | c in COLUMNS :: ACCOUNT.asserted(c).Some?
  {
    forall c | c in COLUMNS ensures ACCOUNT.asserted(c).Some? {
      OnlyKnown(c);
      KnownColumn(c);
    }
  }

  lemma KnownColumn(c: Column)
    requires !c.Other?
    ensures ACCOUNT.asserted(c).Some?
  {
  }
}
