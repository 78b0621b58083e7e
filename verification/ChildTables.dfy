/** The two child entities whose rows the account loaders read: usage logs and proxies. */
module ChildTables {
  import opened Prelude
  import opened EntityRow

  // ----- usage logs -------------------------------------------------------------------------

  datatype LogColumn =
    | LogID | UserID | APIKeyID | LogAccountID | RequestID | Model | RequestedModel | UpstreamModel | ChannelID
    | ModelMappingChain | BillingTier | BillingMode | LogGroupID | SubscriptionID | InputTokens | OutputTokens
    | CacheCreationTokens | CacheReadTokens | CacheCreation5mTokens | CacheCreation1hTokens
    | OriginalCacheCreationTokens | InputCost | OutputCost | CacheCreationCost | CacheReadCost | TotalCost
    | ActualCost | LogRateMultiplier | AccountRateMultiplier | BillingType | Stream | DurationMs | FirstTokenMs
    | UserAgent | IPAddress | ImageCount | ImageSize | CacheTTLOverridden | LogCreatedAt | LogOther(name: string)

  /** usagelog.Columns */
  const LOG_COLUMNS: seq<LogColumn> := [
    LogID, UserID, APIKeyID, LogAccountID, RequestID, Model, RequestedModel, UpstreamModel, ChannelID,
    ModelMappingChain, BillingTier, BillingMode, LogGroupID, SubscriptionID, InputTokens, OutputTokens,
    CacheCreationTokens, CacheReadTokens, CacheCreation5mTokens, CacheCreation1hTokens,
    OriginalCacheCreationTokens, InputCost, OutputCost, CacheCreationCost, CacheReadCost, TotalCost,
    ActualCost, LogRateMultiplier, AccountRateMultiplier, BillingType, Stream, DurationMs, FirstTokenMs,
    UserAgent, IPAddress, ImageCount, ImageSize, CacheTTLOverridden, LogCreatedAt]

  /** The switch of scanValues. */
  function LogScanKind(c: LogColumn): Kind {
    match c
    case Stream | CacheTTLOverridden => NullBool
    case InputCost | OutputCost | CacheCreationCost | CacheReadCost | TotalCost | ActualCost | LogRateMultiplier
      | AccountRateMultiplier => NullFloat64
    case LogID | UserID | APIKeyID | LogAccountID | ChannelID | LogGroupID | SubscriptionID | InputTokens | OutputTokens
      | CacheCreationTokens | CacheReadTokens | CacheCreation5mTokens | CacheCreation1hTokens
      | OriginalCacheCreationTokens | BillingType | DurationMs | FirstTokenMs | ImageCount => NullInt64
    case RequestID | Model | RequestedModel | UpstreamModel | ModelMappingChain | BillingTier | BillingMode | UserAgent
      | IPAddress | ImageSize => NullString
    case LogCreatedAt => NullTime
    case LogOther(_) => UnknownType
  }

  /** The types that the cases of assignValues assert. */
  function LogAsserted(c: LogColumn): Option<Kind> {
    match c
    case LogID | UserID | APIKeyID | LogAccountID => Some(NullInt64)
    case RequestID | Model | RequestedModel | UpstreamModel => Some(NullString)
    case ChannelID => Some(NullInt64)
    case ModelMappingChain | BillingTier | BillingMode => Some(NullString)
    case LogGroupID | SubscriptionID | InputTokens | OutputTokens | CacheCreationTokens | CacheReadTokens
      | CacheCreation5mTokens | CacheCreation1hTokens | OriginalCacheCreationTokens => Some(NullInt64)
    case InputCost | OutputCost | CacheCreationCost | CacheReadCost | TotalCost | ActualCost | LogRateMultiplier
      | AccountRateMultiplier => Some(NullFloat64)
    case BillingType => Some(NullInt64)
    case Stream => Some(NullBool)
    case DurationMs | FirstTokenMs => Some(NullInt64)
    case UserAgent | IPAddress => Some(NullString)
    case ImageCount => Some(NullInt64)
    case ImageSize => Some(NullString)
    case CacheTTLOverridden => Some(NullBool)
    case LogCreatedAt => Some(NullTime)
    case LogOther(_) => None
  }

  predicate LogPointer(c: LogColumn) {
    match c
    case RequestedModel | UpstreamModel | ChannelID | ModelMappingChain | BillingTier | BillingMode | LogGroupID => true
    case SubscriptionID | AccountRateMultiplier | DurationMs | FirstTokenMs | UserAgent | IPAddress | ImageSize => true
    case _ => false
  }

  function LogZero(c: LogColumn): Value {
    match LogScanKind(c)
    case NullBool => Bool(false)
    case NullFloat64 => Float(0.0)
    case NullInt64 => Int(0)
    case NullTime => Time(0)
    case _ => Str("")
  }

  const USAGE_LOG: Schema<LogColumn> := Schema(LogScanKind, LogAsserted, LogPointer, LogZero, Some(LogID))

  /** Where a column stands in the table. */
  function LogPosition(c: LogColumn): (k: nat)
    ensures !c.LogOther? ==> k < |LOG_COLUMNS| && LOG_COLUMNS[k] == c
  {
    match c
    case LogID => 0 case UserID => 1 case APIKeyID => 2 case LogAccountID => 3 case RequestID => 4 case Model => 5
    case RequestedModel => 6 case UpstreamModel => 7 case ChannelID => 8 case ModelMappingChain => 9
    case BillingTier => 10 case BillingMode => 11 case LogGroupID => 12 case SubscriptionID => 13
    case InputTokens => 14 case OutputTokens => 15 case CacheCreationTokens => 16 case CacheReadTokens => 17
    case CacheCreation5mTokens => 18 case CacheCreation1hTokens => 19 case OriginalCacheCreationTokens => 20
    case InputCost => 21 case OutputCost => 22 case CacheCreationCost => 23 case CacheReadCost => 24
    case TotalCost => 25 case ActualCost => 26 case LogRateMultiplier => 27 case AccountRateMultiplier => 28
    case BillingType => 29 case Stream => 30 case DurationMs => 31 case FirstTokenMs => 32 case UserAgent => 33
    case IPAddress => 34 case ImageCount => 35 case ImageSize => 36 case CacheTTLOverridden => 37
    case LogCreatedAt => 38 case LogOther(_) => |LOG_COLUMNS|
  }

  /** Both switches agree on every column, and the table has every column that is read. */
  lemma LogsAgree()
    ensures Agrees(USAGE_LOG)
    ensures forall c :: USAGE_LOG.asserted(c).Some? ==> c in LOG_COLUMNS
    ensures LogID in LOG_COLUMNS && LogAccountID in LOG_COLUMNS
  {
    forall c: LogColumn
      ensures LogAsserted(c).Some? ==> LogAsserted(c) == Some(LogScanKind(c)) && c in LOG_COLUMNS
    {
      if !c.LogOther? {
        assert LOG_COLUMNS[LogPosition(c)] == c;
      }
    }
    assert LOG_COLUMNS[LogPosition(LogID)] == LogID && LOG_COLUMNS[LogPosition(LogAccountID)] == LogAccountID;
  }

  // ----- proxies ----------------------------------------------------------------------------

  datatype ProxyColumn =
    | PID | PCreatedAt | PUpdatedAt | PDeletedAt | PName | Protocol | Host | Port | Username | Password | PStatus
    | POther(name: string)

  /** proxy.Columns */
  const PROXY_COLUMNS: seq<ProxyColumn> := [
    PID, PCreatedAt, PUpdatedAt, PDeletedAt, PName, Protocol, Host, Port, Username, Password, PStatus]

  function ProxyScanKind(c: ProxyColumn): Kind {
    match c
    case PID | Port => NullInt64
    case PName | Protocol | Host | Username | Password | PStatus => NullString
    case PCreatedAt | PUpdatedAt | PDeletedAt => NullTime
    case POther(_) => UnknownType
  }

  function ProxyAsserted(c: ProxyColumn): Option<Kind> {
    match c
    case PID => Some(NullInt64)
    case PCreatedAt | PUpdatedAt | PDeletedAt => Some(NullTime)
    case PName | Protocol | Host => Some(NullString)
    case Port => Some(NullInt64)
    case Username | Password | PStatus => Some(NullString)
    case POther(_) => None
  }

  function ProxyZero(c: ProxyColumn): Value {
    match ProxyScanKind(c)
    case NullInt64 => Int(0)
    case NullTime => Time(0)
    case _ => Str("")
  }

  const PROXY: Schema<ProxyColumn> :=
    Schema(ProxyScanKind, ProxyAsserted, (c: ProxyColumn) => c.PDeletedAt? || c.Username? || c.Password?, ProxyZero,
        Some(PID))

  function ProxyPosition(c: ProxyColumn): (k: nat)
    ensures !c.POther? ==> k < |PROXY_COLUMNS| && PROXY_COLUMNS[k] == c
  {
    match c
    case PID => 0 case PCreatedAt => 1 case PUpdatedAt => 2 case PDeletedAt => 3 case PName => 4 case Protocol => 5
    case Host => 6 case Port => 7 case Username => 8 case Password => 9 case PStatus => 10
    case POther(_) => |PROXY_COLUMNS|
  }

  lemma ProxiesAgree()
    ensures Agrees(PROXY) && PID in PROXY_COLUMNS
    ensures forall c :: PROXY.asserted(c).Some? ==> c in PROXY_COLUMNS
  {
    forall c: ProxyColumn
      ensures ProxyAsserted(c).Some? ==> ProxyAsserted(c) == Some(ProxyScanKind(c)) && c in PROXY_COLUMNS
    {
      if !c.POther? {
        assert PROXY_COLUMNS[ProxyPosition(c)] == c;
      }
    }
    assert PROXY_COLUMNS[ProxyPosition(PID)] == PID;
  }
}
