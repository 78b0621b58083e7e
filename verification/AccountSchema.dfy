/**
 * The database schema of migrate/schema.go beside the generated code: rows are scanned, asserted,
 * zeroed and checked as the types and the nullability of the columns demand.
 */
module AccountSchema {
  import opened Prelude
  import opened EntityRow
  import opened AccountRow
  import opened AccountCreate
  import opened ChildTables
  import Projection

  datatype ColumnType = TypeInt | TypeInt8 | TypeInt64 | TypeTime | TypeString | TypeJSON | TypeFloat64 | TypeBool

  datatype Def = Def(columnType: ColumnType, nullable: bool)

  function KindFor(t: ColumnType): Kind {
    match t
    case TypeInt | TypeInt8 | TypeInt64 => NullInt64
    case TypeTime => NullTime
    case TypeString => NullString
    case TypeJSON => Bytes
    case TypeFloat64 => NullFloat64
    case TypeBool => NullBool
  }

  function ZeroFor(t: ColumnType): Value {
    match t
    case TypeInt | TypeInt8 | TypeInt64 => Int(0)
    case TypeTime => Time(0)
    case TypeString => Str("")
    case TypeJSON => Map(NilMap)
    case TypeFloat64 => Float(0.0)
    case TypeBool => Bool(false)
  }

  /**
   * The generated tables of an entity fit its schema: exactly the columns of the schema are scanned and
   * asserted as their types demand, nullable ones are pointers, and all others start at the zero value.
   */
  ghost predicate Fits<C(!new)>(e: Schema<C>, defs: C -> Option<Def>) {
    && (forall c :: e.asserted(c) == if defs(c).Some? then Some(KindFor(defs(c).value.columnType)) else None)
    && (forall c :: e.scanKind(c) == if defs(c).Some? then KindFor(defs(c).value.columnType) else UnknownType)
    && (forall c :: e.pointer(c) <==> defs(c).Some? && defs(c).value.nullable)
    && (forall c :: defs(c).Some? && !defs(c).value.nullable ==> e.zero(c) == ZeroFor(defs(c).value.columnType))
  }

  // ----- accounts ---------------------------------------------------------------------------

  /** AccountsColumns */
  function AccountDef(c: Column): Option<Def> {
    match c
    case ID => Some(Def(TypeInt64, false))
    case CreatedAt => Some(Def(TypeTime, false))
    case UpdatedAt => Some(Def(TypeTime, false))
    case DeletedAt => Some(Def(TypeTime, true))
    case Name => Some(Def(TypeString, false))
    case Notes => Some(Def(TypeString, true))
    case Platform => Some(Def(TypeString, false))
    case AccountType => Some(Def(TypeString, false))
    case Credentials => Some(Def(TypeJSON, false))
    case Extra => Some(Def(TypeJSON, false))
    case Concurrency => Some(Def(TypeInt, false))
    case LoadFactor => Some(Def(TypeInt, true))
    case Priority => Some(Def(TypeInt, false))
    case RateMultiplier => Some(Def(TypeFloat64, false))
    case Status => Some(Def(TypeString, false))
    case ErrorMessage => Some(Def(TypeString, true))
    case LastUsedAt => Some(Def(TypeTime, true))
    case ExpiresAt => Some(Def(TypeTime, true))
    case AutoPauseOnExpired => Some(Def(TypeBool, false))
    case Schedulable => Some(Def(TypeBool, false))
    case RateLimitedAt => Some(Def(TypeTime, true))
    case RateLimitResetAt => Some(Def(TypeTime, true))
    case OverloadUntil => Some(Def(TypeTime, true))
    case TempUnschedulableUntil => Some(Def(TypeTime, true))
    case TempUnschedulableReason => Some(Def(TypeString, true))
    case SessionWindowStart => Some(Def(TypeTime, true))
    case SessionWindowEnd => Some(Def(TypeTime, true))
    case SessionWindowStatus => Some(Def(TypeString, true))
    case ProxyID => Some(Def(TypeInt64, true))
    case Other(_) => None
  }

  lemma AccountFits()
    ensures Fits(ACCOUNT, AccountDef)
  {
  }

  /** The columns that must have a value and do not get it from the store. */
  predicate Demanded(c: Column) {
    AccountDef(c).Some? && !AccountDef(c).value.nullable && c != ID
  }

  /** The columns with a validator. */
  predicate Validated(c: Column) {
    c == Name || c == Platform || c == AccountType || c == Status || c == SessionWindowStatus
  }

  /** Where check() looks at a column. */
  function RuleIndex(c: Column): (k: nat)
    requires Demanded(c) || Validated(c)
    ensures k < |RULES| && RULES[k] == Rule(c, Demanded(c), Validated(c))
  {
    match c
    case CreatedAt => 0 case UpdatedAt => 1 case Name => 2 case Platform => 3 case AccountType => 4
    case Credentials => 5 case Extra => 6 case Concurrency => 7 case Priority => 8 case RateMultiplier => 9
    case Status => 10 case AutoPauseOnExpired => 11 case Schedulable => 12 case SessionWindowStatus => 13
  }

  lemma RulesOnly()
    ensures forall i :: 0 <= i < |RULES| ==>
      RULES[i].required == Demanded(RULES[i].column) && RULES[i].validated == Validated(RULES[i].column)
  {
  }

  lemma RuleIndexIs(k: nat)
    requires k < |RULES|
    ensures var c := RULES[k].column; (Demanded(c) || Validated(c)) && RuleIndex(c) == k
  {
  }

  /** A demanded column is unset, or a set value does not pass its validator. */
  predicate Lacks(m: Mutation, c: Column) {
    Demanded(c) && c !in m.fields
  }

  predicate Offends(m: Mutation, rt: Runtime, c: Column) {
    Validated(c) && c in m.fields && !rt.valid(c, m.fields[c])
  }

  lemma {:induction false} FirstViolationIs(m: Mutation, rt: Runtime, rules: seq<Rule>) returns (k: nat)
    requires FirstViolation(m, rt, rules).Some?
    ensures k < |rules| && Violation(m, rt, rules[k]) == FirstViolation(m, rt, rules)
    ensures forall j :: 0 <= j < k ==> Violation(m, rt, rules[j]).None?
  {
    if Violation(m, rt, rules[0]).Some? {
      k := 0;
    } else {
      k := FirstViolationIs(m, rt, rules[1..]);
      assert forall j :: 0 < j <= k ==> rules[1..][j - 1] == rules[j];
      k := k + 1;
    }
  }

  /**
   * check() accepts exactly the mutations in which every column that is not nullable, but for the
   * identifier, has a value, and in which every value with a validator passes it; its error is true.
   */
  lemma CheckExact(m: Mutation, rt: Runtime)
    ensures Check(m, rt).None? <==> forall c :: !Lacks(m, c) && !Offends(m, rt, c)
    ensures Check(m, rt).Some? ==>
      match Check(m, rt).value
      case Missing(c) => Lacks(m, c)
      case Invalid(c) => Offends(m, rt, c)
      case Uninitialized(_) => false
  {
    var rules := RULES;
    RulesOnly();
    if FirstViolation(m, rt, rules).Some? {
      var k := FirstViolationIs(m, rt, rules);
      assert Lacks(m, rules[k].column) || Offends(m, rt, rules[k].column);
    } else {
      PassesAllRules(m, rt, rules);
      forall c ensures !Lacks(m, c) && !Offends(m, rt, c) {
        if Demanded(c) || Validated(c) {
          assert rules[RuleIndex(c)] in rules;
        }
      }
    }
  }

  /** The error is about the first such column, in the order of the schema. */
  lemma CheckFirst(m: Mutation, rt: Runtime, c: Column)
    requires Lacks(m, c) || Offends(m, rt, c)
    ensures Check(m, rt).Some?
    ensures var d := Check(m, rt).value.column; (Demanded(d) || Validated(d)) && RuleIndex(d) <= RuleIndex(c)
  {
    var rules := RULES;
    CheckExact(m, rt);
    var k := FirstViolationIs(m, rt, rules);
    RuleIndexIs(k);
    assert rules[RuleIndex(c)] == Rule(c, Demanded(c), Validated(c));
  }

  /**
   * defaults() fills every column that check() demands but the name, the platform and the type: when no
   * maker is missing, these three and the validators are all that a caller has to care for.
   */
  lemma DefaultsSuffice(m: Mutation, rt: Runtime)
    requires forall c :: HasMaker(c) ==> rt.makers(c).Some?
    ensures var (filled, err) := Defaults(m, rt, DEFAULTED);
      && err.None?
      && (Check(filled, rt).None? <==>
            && Name in m.fields && Platform in m.fields && AccountType in m.fields
            && forall c :: !Offends(filled, rt, c))
  {
    var columns := DEFAULTED;
    DefaultedColumns();
    NoMakerMissing(m, rt, columns);
    LackingAfter(m, rt, columns);
    CheckExact(Defaults(m, rt, columns).0, rt);
    var filled := Defaults(m, rt, columns).0;
    assert (forall c :: !Lacks(filled, c)) <==> !Lacks(filled, Name) && !Lacks(filled, Platform)
                                                  && !Lacks(filled, AccountType);
  }

  predicate ForCaller(c: Column) {
    c == Name || c == Platform || c == AccountType
  }

  lemma LackingAfter(m: Mutation, rt: Runtime, columns: seq<Column>)
    requires Defaults(m, rt, columns).1.None?
    requires forall c :: c in columns <==> Demanded(c) && !ForCaller(c)
    ensures forall c :: Lacks(Defaults(m, rt, columns).0, c) <==> ForCaller(c) && c !in m.fields
  {
    DefaultsExact(m, rt, columns);
    var filled := Defaults(m, rt, columns).0;
    forall c ensures Lacks(filled, c) <==> ForCaller(c) && c !in m.fields {
    }
  }

  lemma {:induction false} NoMakerMissing(m: Mutation, rt: Runtime, columns: seq<Column>)
    requires forall c :: HasMaker(c) ==> rt.makers(c).Some?
    ensures Defaults(m, rt, columns).1.None?
    decreases columns
  {
    if columns == [] {
    } else {
      var c := columns[0];
      var v := if HasMaker(c) then rt.makers(c).value else rt.plain(c);
      NoMakerMissing(if c in m.fields then m else m.(fields := m.fields[c := v]), rt, columns[1..]);
    }
  }

  function DefaultIndex(c: Column): (k: nat)
    requires Demanded(c) && !ForCaller(c)
    ensures k < |DEFAULTED| && DEFAULTED[k] == c
  {
    match c
    case CreatedAt => 0 case UpdatedAt => 1 case Credentials => 2 case Extra => 3 case Concurrency => 4
    case Priority => 5 case RateMultiplier => 6 case Status => 7 case AutoPauseOnExpired => 8 case Schedulable => 9
  }

  lemma DefaultedOnly(i: nat)
    requires i < |DEFAULTED|
    ensures var c := DEFAULTED[i]; Demanded(c) && !ForCaller(c)
  {
  }

  /** What defaults() fills is demanded: all of it but three columns. */
  lemma DefaultedColumns()
    ensures forall c :: c in DEFAULTED <==> Demanded(c) && !ForCaller(c)
  {
    forall c ensures c in DEFAULTED <==> Demanded(c) && !ForCaller(c) {
      if Demanded(c) && !ForCaller(c) {
        assert DEFAULTED[DefaultIndex(c)] == c;
      } else if c in DEFAULTED {
        var i :| 0 <= i < |DEFAULTED| && DEFAULTED[i] == c;
        DefaultedOnly(i);
      }
    }
  }

  // ----- the child tables -------------------------------------------------------------------

  /** UsageLogsColumns */
  function LogDef(c: LogColumn): Option<Def> {
    match c
    case LogID | UserID | APIKeyID | LogAccountID => Some(Def(TypeInt64, false))
    case ChannelID | LogGroupID | SubscriptionID => Some(Def(TypeInt64, true))
    case RequestID | Model => Some(Def(TypeString, false))
    case RequestedModel | UpstreamModel | ModelMappingChain | BillingTier | BillingMode => Some(Def(TypeString, true))
    case UserAgent | IPAddress | ImageSize => Some(Def(TypeString, true))
    case InputTokens | OutputTokens | CacheCreationTokens | CacheReadTokens => Some(Def(TypeInt, false))
    case CacheCreation5mTokens | CacheCreation1hTokens | OriginalCacheCreationTokens => Some(Def(TypeInt, false))
    case InputCost | OutputCost | CacheCreationCost | CacheReadCost => Some(Def(TypeFloat64, false))
    case TotalCost | ActualCost | LogRateMultiplier => Some(Def(TypeFloat64, false))
    case AccountRateMultiplier => Some(Def(TypeFloat64, true))
    case BillingType => Some(Def(TypeInt8, false))
    case Stream | CacheTTLOverridden => Some(Def(TypeBool, false))
    case DurationMs | FirstTokenMs => Some(Def(TypeInt, true))
    case ImageCount => Some(Def(TypeInt, false))
    case LogCreatedAt => Some(Def(TypeTime, false))
    case LogOther(_) => None
  }

  lemma LogsFit()
    ensures Fits(USAGE_LOG, LogDef)
  {
  }

  /** ProxiesColumns */
  function ProxyDef(c: ProxyColumn): Option<Def> {
    match c
    case PID => Some(Def(TypeInt64, false))
    case PCreatedAt | PUpdatedAt => Some(Def(TypeTime, false))
    case PDeletedAt => Some(Def(TypeTime, true))
    case PName | Protocol | Host | PStatus => Some(Def(TypeString, false))
    case Port => Some(Def(TypeInt, false))
    case Username | Password => Some(Def(TypeString, true))
    case POther(_) => None
  }

  lemma ProxiesFit()
    ensures Fits(PROXY, ProxyDef)
  {
  }

  /** AccountGroupsColumns */
  function LinkDef(c: Projection.LinkColumn): Option<Def> {
    match c
    case AccountID | GroupID => Some(Def(TypeInt64, false))
    case LinkPriority => Some(Def(TypeInt, false))
    case LinkCreatedAt => Some(Def(TypeTime, false))
    case LinkOther(_) => None
  }

  lemma LinksFit()
    ensures Fits(Projection.ACCOUNT_GROUP, LinkDef)
  {
  }
}
