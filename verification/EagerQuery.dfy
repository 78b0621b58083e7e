/** AccountQuery.sqlAll: the parent rows become nodes, then each requested edge is loaded in turn. */
module EagerQuery {
  import opened Prelude
  import opened EdgeJoin
  import opened EdgeLoading

  /** What a node's row tells the loaders. */
  datatype Keys = Keys(id: int, proxyID: Option<int>)

  /** The child queries; each answers the identifiers pushed down to it. */
  datatype Children = Children(
    groups: seq<int> -> Result<seq<JoinRow>, string>,
    intercept: seq<Group> -> seq<Group>,
    proxies: seq<int> -> Result<seq<Proxy>, string>,
    usageLogs: seq<int> -> Result<seq<UsageLog>, string>,
    accountGroups: seq<int> -> Result<seq<AccountGroup>, string>)

  ghost predicate Faithful(q: Children) {
    forall ids :: q.groups(ids).Ok? ==> PushedDown(ids, q.groups(ids).value)
  }

  function KeyIds(rows: seq<Keys>): seq<int> {
    seq(|rows|, j requires 0 <= j < |rows| => rows[j].id)
  }

  function KeyProxies(rows: seq<Keys>): seq<Option<int>> {
    seq(|rows|, j requires 0 <= j < |rows| => rows[j].proxyID)
  }

  /** The first error among the requested loaders, in the order sqlAll runs them. */
  function FirstError(want: With, rows: seq<Keys>, q: Children): Option<LoadError> {
    var ids := KeyIds(rows);
    var g := if want.groups then GroupsError(q.groups(ids), q.intercept) else None;
    if g.Some? then g else
    var p := if want.proxy then ProxyError(KeyProxies(rows), q.proxies) else None;
    if p.Some? then p else
    var u := if want.usageLogs then ChildrenError("account_id", ids, q.usageLogs(ids), LogOwner) else None;
    if u.Some? then u else
    if want.accountGroups then ChildrenError("account_id", ids, q.accountGroups(ids), MembershipOwner) else None
  }

  function GroupsLoaded(rows: seq<Keys>, q: Children, j: nat): seq<Group>
    requires j < |rows|
  {
    match q.groups(KeyIds(rows))
    case Ok(joined) => GroupsOf(KeyIds(rows), joined, q.intercept(FirstRows(joined)), j)
    case Err(_) => []
  }

  function LogsLoaded(rows: seq<Keys>, q: Children, j: nat): seq<UsageLog>
    requires j < |rows|
  {
    var ids := KeyIds(rows);
    ChildrenOf(ids, ChildrenUsed(ids, q.usageLogs(ids), LogOwner), LogOwner, j)
  }

  function MembershipsLoaded(rows: seq<Keys>, q: Children, j: nat): seq<AccountGroup>
    requires j < |rows|
  {
    var ids := KeyIds(rows);
    ChildrenOf(ids, ChildrenUsed(ids, q.accountGroups(ids), MembershipOwner), MembershipOwner, j)
  }

  function ProxyLoaded(rows: seq<Keys>, q: Children, j: nat): Option<Proxy>
    requires j < |rows|
  {
    MatchOf(ProxiesUsed(KeyProxies(rows), q.proxies), ProxyKey, rows[j].proxyID, None)
  }

  /** The edges of node j once every requested loader has run. */
  function EdgesOf(want: With, rows: seq<Keys>, q: Children, j: nat): AccountEdges
    requires j < |rows|
  {
    AccountEdges(
      if want.groups then Some(GroupsLoaded(rows, q, j)) else None,
      if want.proxy then ProxyLoaded(rows, q, j) else None,
      if want.usageLogs then Some(LogsLoaded(rows, q, j)) else None,
      if want.accountGroups then Some(MembershipsLoaded(rows, q, j)) else None,
      want)
  }

  /** The parent query answers rows or fails, and then the loaders run. */
  method SqlAll(want: With, fetched: Result<seq<Keys>, string>, q: Children)
      returns (r: Result<seq<Account>, LoadError>)
    requires Faithful(q)
    ensures fetched.Err? ==> r == Err(QueryFailed(fetched.error))
    ensures fetched.Ok? ==> var rows := fetched.value;
      && (r.Err? <==> rows != [] && FirstError(want, rows, q).Some?)
      && (r.Err? ==> Some(r.error) == FirstError(want, rows, q))
      && (r.Ok? ==> |r.value| == |rows| && Distinct(r.value))
      && (r.Ok? ==> forall j :: 0 <= j < |rows| ==>
           && fresh(r.value[j]) && r.value[j].id == rows[j].id && r.value[j].proxyID == rows[j].proxyID
           && r.value[j].edges == EdgesOf(want, rows, q, j))
  {
    if fetched.Err? {
      return Err(QueryFailed(fetched.error));
    }
    var rows := fetched.value;
    var nodes: seq<Account> := [];
    for i := 0 to |rows|
      invariant |nodes| == i && Distinct(nodes)
      invariant forall j :: 0 <= j < i ==>
        && fresh(nodes[j]) && nodes[j].id == rows[j].id && nodes[j].proxyID == rows[j].proxyID
        && nodes[j].edges == AccountEdges(None, None, None, None, want)
    {
      var node := new Account(rows[i].id, rows[i].proxyID, want);
      nodes := nodes + [node];
    }
    if |nodes| == 0 {
      return Ok(nodes);
    }
    assert Ids(nodes) == KeyIds(rows) && ProxyIDs(nodes) == KeyProxies(rows);
    var err := None;
    if want.groups {
      err := LoadGroups(nodes, q.groups, q.intercept);
      if err.Some? { return Err(err.value); }
    }
    if want.proxy {
      err := LoadProxy(nodes, q.proxies);
      if err.Some? { return Err(err.value); }
    }
    if want.usageLogs {
      err := LoadUsageLogs(nodes, q.usageLogs);
      if err.Some? { return Err(err.value); }
    }
    if want.accountGroups {
      err := LoadAccountGroups(nodes, q.accountGroups);
      if err.Some? { return Err(err.value); }
    }
    return Ok(nodes);
  }

  // ----- the edge accessors of account.go ---------------------------------------------------

  datatype EdgeError = NotLoaded(edge: string) | NotFound(entity: string)

  /** A loaded list may still be Go's nil slice. */
  function ListOrErr<T>(list: Option<seq<T>>, loaded: bool, edge: string): Result<Option<seq<T>>, EdgeError> {
    if loaded then Ok(list) else Err(NotLoaded(edge))
  }

  function GroupsOrErr(e: AccountEdges): Result<Option<seq<Group>>, EdgeError> {
    ListOrErr(e.groups, e.loaded.groups, "groups")
  }

  function UsageLogsOrErr(e: AccountEdges): Result<Option<seq<UsageLog>>, EdgeError> {
    ListOrErr(e.usageLogs, e.loaded.usageLogs, "usage_logs")
  }

  function AccountGroupsOrErr(e: AccountEdges): Result<Option<seq<AccountGroup>>, EdgeError> {
    ListOrErr(e.accountGroups, e.loaded.accountGroups, "account_groups")
  }

  function ProxyOrErr(e: AccountEdges): Result<Proxy, EdgeError> {
    if e.proxy.Some? then Ok(e.proxy.value)
    else if e.loaded.proxy then Err(NotFound("proxy"))
    else Err(NotLoaded("proxy"))
  }

  /** The proxies the child query hands back; without foreign keys it does not run. */
  function ProxiesFetched(rows: seq<Keys>, q: Children): Result<seq<Proxy>, string> {
    if Queried(KeyProxies(rows)) == [] then Ok([]) else q.proxies(Queried(KeyProxies(rows)))
  }

  /**
   * After a successful sqlAll the proxy accessor tells the three situations apart, for every parent,
   * whatever identifiers repeat among the parents.
   */
  lemma ProxyAccess(want: With, rows: seq<Keys>, q: Children, j: nat)
    requires j < |rows| && FirstError(want, rows, q).None?
    requires want.proxy && ProxiesFetched(rows, q).Ok? ==>
      forall a, b :: 0 <= a < b < |ProxiesFetched(rows, q).value| ==>
        ProxiesFetched(rows, q).value[a].id != ProxiesFetched(rows, q).value[b].id
    ensures want.proxy ==> ProxiesFetched(rows, q).Ok?
    ensures var r := ProxyOrErr(EdgesOf(want, rows, q, j));
      && (r == Err(NotLoaded("proxy")) <==> !want.proxy)
      && (r == Err(NotFound("proxy")) <==>
            want.proxy && forall p | p in ProxiesFetched(rows, q).value :: rows[j].proxyID != Some(p.id))
      && (forall p :: r == Ok(p) <==>
            want.proxy && p in ProxiesFetched(rows, q).value && rows[j].proxyID == Some(p.id))
  {
    if want.proxy {
      var fetched := ProxiesFetched(rows, q).value;
      assert ProxiesUsed(KeyProxies(rows), q.proxies) == fetched;
      MatchExact(fetched, ProxyKey, rows[j].proxyID);
    }
  }

  /** Child queries that may fail but only answer what was asked, and no interceptors. */
  ghost predicate WellBehaved(q: Children) {
    && Faithful(q)
    && (forall found :: q.intercept(found) == found)
    && (forall ids :: q.proxies(ids).Ok? ==> forall p | p in q.proxies(ids).value :: p.id in ids)
    && (forall ids :: q.usageLogs(ids).Ok? ==> forall l | l in q.usageLogs(ids).value :: l.accountID in ids)
    && (forall ids :: q.accountGroups(ids).Ok? ==> forall m | m in q.accountGroups(ids).value :: m.accountID in ids)
  }

  lemma ProxyExpected(fks: seq<Option<int>>, query: seq<int> -> Result<seq<Proxy>, string>)
    requires query(Queried(fks)).Ok? ==> forall p | p in query(Queried(fks)).value :: p.id in Queried(fks)
    ensures ProxyError(fks, query).Some? ==> ProxyError(fks, query).value.QueryFailed?
  {
    QueriedExact(fks);
    if query(Queried(fks)).Ok? {
      ReferencedIs(fks, query(Queried(fks)).value, ProxyKey, |query(Queried(fks)).value|);
    }
  }

  lemma ChildrenExpected<N>(edge: string, ids: seq<int>, fetched: Result<seq<N>, string>, fk: N -> int)
    requires fetched.Ok? ==> forall x | x in fetched.value :: fk(x) in ids
    ensures ChildrenError(edge, ids, fetched, fk).Some? ==> ChildrenError(edge, ids, fetched, fk).value.QueryFailed?
  {
    if fetched.Ok? {
      OwnedIs(ids, fetched.value, fk, |fetched.value|);
    }
  }

  /** The only errors are then those of the child queries: no "unexpected node" is ever reported. */
  lemma NoUnexpectedNode(want: With, rows: seq<Keys>, q: Children)
    requires WellBehaved(q)
    ensures FirstError(want, rows, q).Some? ==> FirstError(want, rows, q).value.QueryFailed?
  {
    var ids := KeyIds(rows);
    if q.groups(ids).Ok? {
      AllKnown(q.groups(ids).value);
    }
    ProxyExpected(KeyProxies(rows), q.proxies);
    ChildrenExpected("account_id", ids, q.usageLogs(ids), LogOwner);
    ChildrenExpected("account_id", ids, q.accountGroups(ids), MembershipOwner);
  }

  lemma GroupsExact(rows: seq<Keys>, q: Children, j: nat)
    requires q.groups(KeyIds(rows)).Ok? && (forall found :: q.intercept(found) == found)
    requires j < |rows| && Distinct(KeyIds(rows))
    ensures IsJoinOf(q.groups(KeyIds(rows)).value, rows[j].id, GroupsLoaded(rows, q, j))
  {
    var joined := q.groups(KeyIds(rows)).value;
    AllKnown(joined);
    RelatedIsJoin(joined, rows[j].id);
  }

  /** A loader that reports no error leaves the nested-loop join. */
  lemma ChildrenExact<N>(edge: string, ids: seq<int>, fetched: Result<seq<N>, string>, fk: N -> int, j: nat)
    requires ChildrenError(edge, ids, fetched, fk).None? && j < |ids| && Distinct(ids)
    ensures fetched.Ok?
    ensures ChildrenOf(ids, ChildrenUsed(ids, fetched, fk), fk, j) == OwnChildren(fetched.value, fk, ids[j])
  {
    assert ChildrenUsed(ids, fetched, fk) == fetched.value;
  }

  /**
   * After a successful sqlAll with distinct parents and no interceptors, each accessor of a requested
   * list returns the nested-loop join, and that of any other list says that it was not loaded.
   */
  lemma ListsAccess(want: With, rows: seq<Keys>, q: Children, j: nat)
    requires FirstError(want, rows, q).None? && (forall found :: q.intercept(found) == found)
    requires j < |rows| && Distinct(KeyIds(rows))
    ensures var e := EdgesOf(want, rows, q, j);
      var ids := KeyIds(rows);
      && (want.groups ==> q.groups(ids).Ok? && GroupsOrErr(e).Ok? && GroupsOrErr(e).value.Some?)
      && (want.groups ==> IsJoinOf(q.groups(ids).value, ids[j], GroupsOrErr(e).value.value))
      && (want.usageLogs ==> q.usageLogs(ids).Ok?)
      && (want.usageLogs ==> UsageLogsOrErr(e) == Ok(Some(OwnChildren(q.usageLogs(ids).value, LogOwner, ids[j]))))
      && (want.accountGroups ==> q.accountGroups(ids).Ok?)
      && (want.accountGroups ==>
            AccountGroupsOrErr(e) == Ok(Some(OwnChildren(q.accountGroups(ids).value, MembershipOwner, ids[j]))))
      && (!want.groups ==> GroupsOrErr(e) == Err(NotLoaded("groups")))
      && (!want.usageLogs ==> UsageLogsOrErr(e) == Err(NotLoaded("usage_logs")))
      && (!want.accountGroups ==> AccountGroupsOrErr(e) == Err(NotLoaded("account_groups")))
  {
    var ids := KeyIds(rows);
    if want.groups {
      GroupsExact(rows, q, j);
    }
    if want.usageLogs {
      ChildrenExact("account_id", ids, q.usageLogs(ids), LogOwner, j);
    }
    if want.accountGroups {
      ChildrenExact("account_id", ids, q.accountGroups(ids), MembershipOwner, j);
    }
  }
}
