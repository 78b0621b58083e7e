/**
 * Column projection of the child queries: a loader hands the same rows to the same parents whatever
 * fields its child query selects.
 */
module ChildProjection {
  import opened Prelude
  import opened EntityRow
  import opened AccountRow
  import opened EdgeJoin
  import opened ManyToOne
  import opened ChildTables
  import opened Projection
  import EdgeLoading
  import EagerQuery

  // ----- what the loaders read from a child row -----------------------------------------------

  /** UsageLogQuery.querySpec, after loadUsageLogs has asked for the owner; keys are those of its own edges. */
  function LogColumns(fields: seq<LogColumn>, keys: seq<LogColumn>): seq<LogColumn> {
    SpecColumns(Some(LogID), LOG_COLUMNS, if fields != [] then AddOnce(fields, LogAccountID) else fields, keys)
  }

  function ProxyColumns(fields: seq<ProxyColumn>): seq<ProxyColumn> {
    SpecColumns(Some(PID), PROXY_COLUMNS, fields, [])
  }

  function ReadLog(columns: seq<LogColumn>, unmarshal: Unmarshaler): Row<LogColumn> -> UsageLog {
    (row: Row<LogColumn>) =>
      UsageLog(IntRead(FieldRead(USAGE_LOG, columns, row, unmarshal, LogID)),
               IntRead(FieldRead(USAGE_LOG, columns, row, unmarshal, LogAccountID)))
  }

  function StrRead(f: Field): string {
    match f
    case Plain(Str(s)) => s
    case _ => ""
  }

  function ReadProxy(columns: seq<ProxyColumn>, unmarshal: Unmarshaler): Row<ProxyColumn> -> Proxy {
    (row: Row<ProxyColumn>) =>
      Proxy(IntRead(FieldRead(PROXY, columns, row, unmarshal, PID)),
            StrRead(FieldRead(PROXY, columns, row, unmarshal, PName)))
  }

  function ReadMembership(columns: seq<LinkColumn>, unmarshal: Unmarshaler): Row<LinkColumn> -> AccountGroup {
    (row: Row<LinkColumn>) =>
      AccountGroup(IntRead(FieldRead(ACCOUNT_GROUP, columns, row, unmarshal, AccountID)),
                   IntRead(FieldRead(ACCOUNT_GROUP, columns, row, unmarshal, GroupID)))
  }

  /** The owner that loadUsageLogs reads survives every selection, and so does the identifier. */
  lemma LogKeysSurvive(fields: seq<LogColumn>, keys: seq<LogColumn>, row: Row<LogColumn>, unmarshal: Unmarshaler)
    requires Decodable(USAGE_LOG, LOG_COLUMNS, row, unmarshal)
    ensures Decodable(USAGE_LOG, LogColumns(fields, keys), row, unmarshal)
    ensures ReadLog(LogColumns(fields, keys), unmarshal)(row) == ReadLog(LOG_COLUMNS, unmarshal)(row)
  {
    LogsAgree();
    if fields != [] {
      SpecColumnsExact(Some(LogID), LOG_COLUMNS, AddOnce(fields, LogAccountID), keys);
      FieldSurvives(USAGE_LOG, LogColumns(fields, keys), LOG_COLUMNS, row, unmarshal, LogID);
      FieldSurvives(USAGE_LOG, LogColumns(fields, keys), LOG_COLUMNS, row, unmarshal, LogAccountID);
    }
  }

  lemma ProxyKeySurvives(fields: seq<ProxyColumn>, row: Row<ProxyColumn>, unmarshal: Unmarshaler)
    requires Decodable(PROXY, PROXY_COLUMNS, row, unmarshal)
    ensures ReadProxy(ProxyColumns(fields), unmarshal)(row).id == ReadProxy(PROXY_COLUMNS, unmarshal)(row).id
  {
    ProxiesAgree();
    if fields != [] {
      SpecColumnsExact(Some(PID), PROXY_COLUMNS, fields, []);
      FieldSurvives(PROXY, ProxyColumns(fields), PROXY_COLUMNS, row, unmarshal, PID);
    }
  }

  lemma MembershipKeySurvives(
    fields: seq<LinkColumn>, withAccount: bool, withGroup: bool, row: Row<LinkColumn>, unmarshal: Unmarshaler)
    requires Decodable(ACCOUNT_GROUP, LINK_COLUMNS, row, unmarshal)
    ensures ReadMembership(LinkColumns(fields, withAccount, withGroup, true), unmarshal)(row).accountID ==
      ReadMembership(LINK_COLUMNS, unmarshal)(row).accountID
  {
    LinkKeysSurvive(fields, withAccount, withGroup, true, row, unmarshal);
  }

  // ----- loaders do not look beyond the key ---------------------------------------------------

  function Reading<A, N>(read: A -> N, fetched: Result<seq<A>, string>): Result<seq<N>, string> {
    match fetched
    case Err(m) => Err(m)
    case Ok(rows) => Ok(Each(read, rows))
  }

  /** The key that a loader finds in what it reads is the row's. */
  ghost predicate Keyed<A, N>(fetched: Result<seq<A>, string>, read: A -> N, fk: N -> int, key: A -> int) {
    fetched.Ok? ==> forall i :: 0 <= i < |fetched.value| ==> fk(read(fetched.value[i])) == key(fetched.value[i])
  }

  /** A one-to-many loader reports and uses what it would for the bare rows. */
  lemma ChildrenUsedRead<A, N>(
    edge: string, ids: seq<int>, fetched: Result<seq<A>, string>, read: A -> N, fk: N -> int, key: A -> int)
    requires Keyed(fetched, read, fk, key)
    ensures var answer := Reading(read, fetched);
      && EdgeLoading.ChildrenError(edge, ids, answer, fk) == EdgeLoading.ChildrenError(edge, ids, fetched, key)
      && EdgeLoading.ChildrenUsed(ids, answer, fk) == Each(read, EdgeLoading.ChildrenUsed(ids, fetched, key))
      && Keyed(Ok(EdgeLoading.ChildrenUsed(ids, fetched, key)), read, fk, key)
  {
    if fetched.Ok? {
      var rows := fetched.value;
      AcceptedEach(read, rows, (n: N) => fk(n) in ids, (a: A) => key(a) in ids);
      assert Owned(ids, Each(read, rows), fk) == Each(read, Owned(ids, rows, key));
    }
  }

  /** A one-to-many loader hands out what it would hand out of the bare rows. */
  lemma ChildrenRead<A, N>(
    ids: seq<int>, fetched: Result<seq<A>, string>, read: A -> N, fk: N -> int, key: A -> int, j: nat)
    requires j < |ids| && Keyed(fetched, read, fk, key)
    ensures ChildrenOf(ids, EdgeLoading.ChildrenUsed(ids, Reading(read, fetched), fk), fk, j) ==
      Each(read, ChildrenOf(ids, EdgeLoading.ChildrenUsed(ids, fetched, key), key, j))
  {
    var used := EdgeLoading.ChildrenUsed(ids, fetched, key);
    ChildrenUsedRead("", ids, fetched, read, fk, key);
    if IsLast(ids, j) {
      FilterEach(read, used, (n: N) => fk(n) == ids[j], (a: A) => key(a) == ids[j]);
    }
  }

  function IfSome<A, B>(f: A -> B, x: Option<A>): Option<B> {
    if x.Some? then Some(f(x.value)) else None
  }

  lemma {:induction false} MatchEach<A, N>(rows: seq<A>, read: A -> N, fk: N -> int, key: A -> int, k: Option<int>)
    requires forall i :: 0 <= i < |rows| ==> fk(read(rows[i])) == key(rows[i])
    ensures MatchOf(Each(read, rows), fk, k, None) == IfSome(read, MatchOf(rows, key, k, None))
  {
    if rows == [] {
    } else {
      var n := |rows| - 1;
      MatchEach(rows[..n], read, fk, key, k);
      assert Each(read, rows)[..n] == Each(read, rows[..n]);
    }
  }

  /** A many-to-one loader reports and hands out what it would for the bare rows. */
  lemma TargetsRead<A, N>(
    edge: string, fks: seq<Option<int>>, query: seq<int> -> Result<seq<A>, string>, read: A -> N, fk: N -> int,
    key: A -> int, k: Option<int>)
    requires Keyed(query(Queried(fks)), read, fk, key)
    ensures var answers := ids => Reading(read, query(ids));
      && TargetError(edge, fks, answers, fk) == TargetError(edge, fks, query, key)
      && MatchOf(TargetsUsed(fks, answers, fk), fk, k, None) ==
          IfSome(read, MatchOf(TargetsUsed(fks, query, key), key, k, None))
  {
    var fetched := query(Queried(fks));
    if Queried(fks) != [] && fetched.Ok? {
      var rows := fetched.value;
      AcceptedEach(read, rows, (n: N) => Some(fk(n)) in fks, (a: A) => Some(key(a)) in fks);
      var used := Referenced(fks, rows, key);
      assert Referenced(fks, Each(read, rows), fk) == Each(read, used);
      assert forall i :: 0 <= i < |used| ==> used[i] == rows[i];
      MatchEach(used, read, fk, key, k);
    } else {
      MatchEach([], read, fk, key, k);
    }
  }

  // ----- every query's fields at once ---------------------------------------------------------

  datatype Selection = Selection(
    account: seq<Column>, proxy: seq<ProxyColumn>, logs: seq<LogColumn>, logKeys: seq<LogColumn>,
    memberships: seq<LinkColumn>, withAccount: bool, withGroup: bool)

  /** What the child queries find, before their fields are selected. */
  datatype Sources = Sources(
    groups: seq<int> -> Result<seq<JoinRow>, string>,
    intercept: seq<Group> -> seq<Group>,
    proxies: seq<int> -> Result<seq<Row<ProxyColumn>>, string>,
    logs: seq<int> -> Result<seq<Row<LogColumn>>, string>,
    memberships: seq<int> -> Result<seq<Row<LinkColumn>>, string>)

  function ProxyReader(s: Selection, unmarshal: Unmarshaler): Row<ProxyColumn> -> Proxy {
    ReadProxy(ProxyColumns(s.proxy), unmarshal)
  }

  function LogReader(s: Selection, unmarshal: Unmarshaler): Row<LogColumn> -> UsageLog {
    ReadLog(LogColumns(s.logs, s.logKeys), unmarshal)
  }

  function MembershipReader(s: Selection, unmarshal: Unmarshaler): Row<LinkColumn> -> AccountGroup {
    ReadMembership(LinkColumns(s.memberships, s.withAccount, s.withGroup, true), unmarshal)
  }

  /** The child queries with their fields selected. */
  function Selected(s: Selection, src: Sources, unmarshal: Unmarshaler): EagerQuery.Children {
    EagerQuery.Children(
      src.groups, src.intercept,
      ids => Reading(ProxyReader(s, unmarshal), src.proxies(ids)),
      ids => Reading(LogReader(s, unmarshal), src.logs(ids)),
      ids => Reading(MembershipReader(s, unmarshal), src.memberships(ids)))
  }

  /** No fields selected anywhere: all columns. */
  function Everything(s: Selection): Selection {
    s.(account := [], proxy := [], logs := [], memberships := [])
  }

  /** The full queries read all their rows. */
  ghost predicate AllDecodable<C>(e: Schema<C>, table: seq<C>, fetched: Result<seq<Row<C>>, string>,
      unmarshal: Unmarshaler) {
    fetched.Ok? ==> forall i :: 0 <= i < |fetched.value| ==> Decodable(e, table, fetched.value[i], unmarshal)
  }

  ghost predicate Readable(src: Sources, unmarshal: Unmarshaler) {
    forall ids ::
      && AllDecodable(PROXY, PROXY_COLUMNS, src.proxies(ids), unmarshal)
      && AllDecodable(USAGE_LOG, LOG_COLUMNS, src.logs(ids), unmarshal)
      && AllDecodable(ACCOUNT_GROUP, LINK_COLUMNS, src.memberships(ids), unmarshal)
  }

  function ProxyRowKey(unmarshal: Unmarshaler): Row<ProxyColumn> -> int {
    (row: Row<ProxyColumn>) => ReadProxy(PROXY_COLUMNS, unmarshal)(row).id
  }

  function MembershipRowKey(unmarshal: Unmarshaler): Row<LinkColumn> -> int {
    (row: Row<LinkColumn>) => ReadMembership(LINK_COLUMNS, unmarshal)(row).accountID
  }

  lemma SameLogs(s: Selection, src: Sources, ids: seq<int>, unmarshal: Unmarshaler)
    requires AllDecodable(USAGE_LOG, LOG_COLUMNS, src.logs(ids), unmarshal)
    ensures Selected(s, src, unmarshal).usageLogs(ids) == Selected(Everything(s), src, unmarshal).usageLogs(ids)
  {
    if src.logs(ids).Ok? {
      var rows := src.logs(ids).value;
      forall i | 0 <= i < |rows|
        ensures LogReader(s, unmarshal)(rows[i]) == LogReader(Everything(s), unmarshal)(rows[i])
      {
        LogKeysSurvive(s.logs, s.logKeys, rows[i], unmarshal);
      }
      assert Each(LogReader(s, unmarshal), rows) == Each(LogReader(Everything(s), unmarshal), rows);
    }
  }

  lemma ProxiesKeyed(s: Selection, src: Sources, ids: seq<int>, unmarshal: Unmarshaler)
    requires AllDecodable(PROXY, PROXY_COLUMNS, src.proxies(ids), unmarshal)
    ensures Keyed(src.proxies(ids), ProxyReader(s, unmarshal), ProxyKey, ProxyRowKey(unmarshal))
  {
    if src.proxies(ids).Ok? {
      var rows := src.proxies(ids).value;
      forall i | 0 <= i < |rows|
          ensures ProxyKey(ProxyReader(s, unmarshal)(rows[i])) == ProxyRowKey(unmarshal)(rows[i]) {
        ProxyKeySurvives(s.proxy, rows[i], unmarshal);
      }
    }
  }

  lemma MembershipsKeyed(s: Selection, src: Sources, ids: seq<int>, unmarshal: Unmarshaler)
    requires AllDecodable(ACCOUNT_GROUP, LINK_COLUMNS, src.memberships(ids), unmarshal)
    ensures Keyed(src.memberships(ids), MembershipReader(s, unmarshal), MembershipOwner, MembershipRowKey(unmarshal))
  {
    if src.memberships(ids).Ok? {
      var rows := src.memberships(ids).value;
      forall i | 0 <= i < |rows|
        ensures MembershipOwner(MembershipReader(s, unmarshal)(rows[i])) == MembershipRowKey(unmarshal)(rows[i])
      {
        MembershipKeySurvives(s.memberships, s.withAccount, s.withGroup, rows[i], unmarshal);
      }
    }
  }

  /** The proxy row that parent j gets, and the membership rows. */
  function ProxyRow(keys: seq<EagerQuery.Keys>, src: Sources, unmarshal: Unmarshaler, j: nat): Option<Row<ProxyColumn>>
    requires j < |keys|
  {
    var fks, key := EagerQuery.KeyProxies(keys), ProxyRowKey(unmarshal);
    MatchOf(TargetsUsed(fks, src.proxies, key), key, keys[j].proxyID, None)
  }

  function MembershipRows(keys: seq<EagerQuery.Keys>, src: Sources, unmarshal: Unmarshaler,
      j: nat): seq<Row<LinkColumn>>
    requires j < |keys|
  {
    var ids, key := EagerQuery.KeyIds(keys), MembershipRowKey(unmarshal);
    ChildrenOf(ids, EdgeLoading.ChildrenUsed(ids, src.memberships(ids), key), key, j)
  }

  /** What the loaders leave on parent j, in terms of rows that do not depend on the selection. */
  ghost predicate SameRows(want: EdgeLoading.With, keys: seq<EagerQuery.Keys>, s: Selection, src: Sources,
                           unmarshal: Unmarshaler, j: nat)
    requires j < |keys|
  {
    var e := EagerQuery.EdgesOf(want, keys, Selected(s, src, unmarshal), j);
    var all := EagerQuery.EdgesOf(want, keys, Selected(Everything(s), src, unmarshal), j);
    && e.loaded == all.loaded && e.groups == all.groups && e.usageLogs == all.usageLogs
    && (want.proxy ==> e.proxy == IfSome(ProxyReader(s, unmarshal), ProxyRow(keys, src, unmarshal, j)))
    && (want.accountGroups ==>
          e.accountGroups == Some(Each(MembershipReader(s, unmarshal), MembershipRows(keys, src, unmarshal, j))))
  }

  lemma SelectedError(want: EdgeLoading.With, keys: seq<EagerQuery.Keys>, s: Selection, src: Sources,
      unmarshal: Unmarshaler)
    requires Readable(src, unmarshal)
    ensures EagerQuery.FirstError(want, keys, Selected(s, src, unmarshal)) ==
      EagerQuery.FirstError(want, keys, Selected(Everything(s), src, unmarshal))
  {
    var ids, fks, all := EagerQuery.KeyIds(keys), EagerQuery.KeyProxies(keys), Everything(s);
    SameLogs(s, src, ids, unmarshal);
    ProxiesKeyed(s, src, Queried(fks), unmarshal);
    ProxiesKeyed(all, src, Queried(fks), unmarshal);
    TargetsRead("proxy_id", fks, src.proxies, ProxyReader(s, unmarshal), ProxyKey, ProxyRowKey(unmarshal), None);
    TargetsRead("proxy_id", fks, src.proxies, ProxyReader(all, unmarshal), ProxyKey, ProxyRowKey(unmarshal), None);
    MembershipsKeyed(s, src, ids, unmarshal);
    MembershipsKeyed(all, src, ids, unmarshal);
    var key := MembershipRowKey(unmarshal);
    ChildrenUsedRead("account_id", ids, src.memberships(ids), MembershipReader(s, unmarshal), MembershipOwner, key);
    ChildrenUsedRead("account_id", ids, src.memberships(ids), MembershipReader(all, unmarshal), MembershipOwner, key);
  }

  lemma SelectedProxy(keys: seq<EagerQuery.Keys>, s: Selection, src: Sources, unmarshal: Unmarshaler, j: nat)
    requires Readable(src, unmarshal) && j < |keys|
    ensures EagerQuery.ProxyLoaded(keys, Selected(s, src, unmarshal), j) ==
      IfSome(ProxyReader(s, unmarshal), ProxyRow(keys, src, unmarshal, j))
  {
    var fks := EagerQuery.KeyProxies(keys);
    ProxiesKeyed(s, src, Queried(fks), unmarshal);
    TargetsRead("proxy_id", fks, src.proxies, ProxyReader(s, unmarshal), ProxyKey, ProxyRowKey(unmarshal),
        keys[j].proxyID);
  }

  lemma SelectedMemberships(keys: seq<EagerQuery.Keys>, s: Selection, src: Sources, unmarshal: Unmarshaler, j: nat)
    requires Readable(src, unmarshal) && j < |keys|
    ensures EagerQuery.MembershipsLoaded(keys, Selected(s, src, unmarshal), j) ==
      Each(MembershipReader(s, unmarshal), MembershipRows(keys, src, unmarshal, j))
  {
    var ids := EagerQuery.KeyIds(keys);
    MembershipsKeyed(s, src, ids, unmarshal);
    ChildrenRead(ids, src.memberships(ids), MembershipReader(s, unmarshal), MembershipOwner,
                 MembershipRowKey(unmarshal), j);
  }

  lemma SelectedEdges(
    want: EdgeLoading.With, keys: seq<EagerQuery.Keys>, s: Selection, src: Sources, unmarshal: Unmarshaler, j: nat)
    requires Readable(src, unmarshal) && j < |keys|
    ensures SameRows(want, keys, s, src, unmarshal, j)
  {
    SameLogs(s, src, EagerQuery.KeyIds(keys), unmarshal);
    SelectedProxy(keys, s, src, unmarshal, j);
    SelectedMemberships(keys, s, src, unmarshal, j);
  }

  /**
   * For every selection of fields in the account query and in all its child queries: errors are those
   * of the unprojected queries, groups and usage logs are equal, and proxies and memberships are the
   * same rows, read in the selected columns.
   */
  lemma AllFieldsCommute(want: EdgeLoading.With, rows: seq<Row<Column>>, s: Selection, src: Sources,
      unmarshal: Unmarshaler)
    requires forall j :: 0 <= j < |rows| ==> Decodable(ACCOUNT, COLUMNS, rows[j], unmarshal)
    requires Readable(src, unmarshal)
    ensures var few, full := AllKeysRead(AccountColumns(s.account, want.proxy), rows, unmarshal),
        AllKeysRead(COLUMNS, rows, unmarshal);
      var q, all := Selected(s, src, unmarshal), Selected(Everything(s), src, unmarshal);
      && EagerQuery.FirstError(want, few, q) == EagerQuery.FirstError(want, full, all)
      && forall j :: 0 <= j < |rows| ==>
           && EagerQuery.EdgesOf(want, few, q, j) == EagerQuery.EdgesOf(want, full, q, j)
           && SameRows(want, full, s, src, unmarshal, j)
  {
    var full := AllKeysRead(COLUMNS, rows, unmarshal);
    EagerLoadingCommutes(s.account, want, rows, unmarshal, Selected(s, src, unmarshal));
    SelectedError(want, full, s, src, unmarshal);
    forall j | 0 <= j < |rows| ensures SameRows(want, full, s, src, unmarshal, j) {
      SelectedEdges(want, full, s, src, unmarshal, j);
    }
  }
}
